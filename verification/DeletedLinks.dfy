/** What a link is answered with after it was deleted. */
module DeletedLinks {
  import opened Wrappers
  import opened Storage
  import opened CacheValue
  import opened LinkService
  import opened LinkInvariant
  import opened LinkTheorems
  import opened Retrieval
  import Cache

  /**
   * The exact condition under which a deleted link still resolves: the proxy has something
   * under the key, in its own layer or the shared one, and the expiry written there is not past.
   */
  lemma DeletedStillResolves(w: World, t: TaskId, p: ProxyId, key: Key)
    requires Inv(w) && t !in w.tasks && IdOf(key).Some?
    requires IdOf(key).value in w.rows && w.rows[IdOf(key).value].deleted
    ensures var row := w.rows[IdOf(key).value]; var found := Cache.ProxyGet(w.shared, LocalOf(w, p), w.now, key);
            AnswerNow(w, t, p, key)
            == Some(if found.None? then Missing(key)
                    else if IsExpired(Stored(row.expiresAt), w.now) then Gone(key)
                    else Resolved(key, row.url))
  {
    var id := IdOf(key).value;
    if Cache.ProxyGet(w.shared, LocalOf(w, p), w.now, key).Some? {
      Asked(w, t, p, key);
      AnswerFromCache(w, t, p, key);
      assert LinkOf(w.rows[id]) == w.bound[id];
      DecodeOfEncode(w.bound[id].url, w.bound[id].expiresAt);
    } else {
      AnswerFromRow(w, t, p, key);
    }
  }
}
