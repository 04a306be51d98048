/** What a Retrieve answers that nobody interrupts: from a cached value, and from the table. */
module Retrieval {
  import opened Wrappers
  import opened Storage
  import opened CacheValue
  import opened LinkService
  import opened LinkInvariant
  import opened LinkTheorems
  import Cache

  /** The first answer that is settled on the way through a Retrieve's steps, taken at once. */
  function AnswerNow(w: World, t: TaskId, p: ProxyId, key: Key): Option<Answer> {
    var asked := Apply(w, BeginRetrieve(t, p, key));
    if AnswerOf(w, BeginRetrieve(t, p, key)).Some? then AnswerOf(w, BeginRetrieve(t, p, key))
    else if AnswerOf(asked, Judge(t)).Some? then AnswerOf(asked, Judge(t))
    else AnswerFromTable(Apply(asked, Judge(t)), t)
  }

  function AnswerFromTable(w: World, t: TaskId): Option<Answer> {
    if AnswerOf(w, ReadRow(t)).Some? then AnswerOf(w, ReadRow(t)) else AnswerOf(Apply(w, ReadRow(t)), Check(t))
  }

  predicate IsOver(expiresAt: Option<Time>, now: Time) {
    expiresAt.Some? && expiresAt.value <= now
  }

  lemma Asked(w: World, t: TaskId, p: ProxyId, key: Key)
    requires Inv(w) && t !in w.tasks && IdOf(key).Some?
    ensures var asked := Apply(w, BeginRetrieve(t, p, key)); var found := Cache.ProxyGet(w.shared, LocalOf(w, p), w.now, key);
            && AnswerOf(w, BeginRetrieve(t, p, key)).None?
            && asked == DoBeginRetrieve(w, t, p, key)
            && asked.tasks == w.tasks[t := if found.Some? then Judging(p, key, found.value) else Reading(p, key)]
            && (found.Some? ==> IdOf(key).value in w.bound && found.value == ValueOf(w.bound[IdOf(key).value]))
  {
    LocalOfBound(w, p);
    FilledBound(w.bound, w.shared, LocalOf(w, p), w.now, key);
  }

  /** From a cached value: its URL if its expiry is not over, and "expired" otherwise. */
  lemma AnswerFromCache(w: World, t: TaskId, p: ProxyId, key: Key)
    requires Inv(w) && t !in w.tasks && IdOf(key).Some?
    requires Cache.ProxyGet(w.shared, LocalOf(w, p), w.now, key).Some?
    ensures var decoded := DecodeValue(Cache.ProxyGet(w.shared, LocalOf(w, p), w.now, key).value);
            && decoded.Some?
            && AnswerNow(w, t, p, key)
               == Some(if IsOver(decoded.value.1, w.now) then Gone(key) else Resolved(key, decoded.value.0))
  {
    var asked := Apply(w, BeginRetrieve(t, p, key));
    Asked(w, t, p, key);
    VerdictOnLink(w.bound[IdOf(key).value], w.now);
    DecodeOfEncode(w.bound[IdOf(key).value].url, w.bound[IdOf(key).value].expiresAt);
    AnswerAtJudge(asked, t);
  }

  /** From the table: the URL of a row that is there, not deleted and not over. */
  lemma AnswerFromRow(w: World, t: TaskId, p: ProxyId, key: Key)
    requires Inv(w) && t !in w.tasks && IdOf(key).Some?
    requires Cache.ProxyGet(w.shared, LocalOf(w, p), w.now, key).None?
    ensures var id := IdOf(key).value;
            AnswerNow(w, t, p, key)
            == Some(if id !in w.rows || w.rows[id].deleted then Missing(key)
                    else if IsOver(w.rows[id].expiresAt, w.now) then Gone(key)
                    else Resolved(key, w.rows[id].url))
  {
    var asked := Apply(w, BeginRetrieve(t, p, key));
    Asked(w, t, p, key);
    NothingToJudge(asked, t);
    ReadAndChecked(asked, t);
  }

  lemma NothingToJudge(w: World, t: TaskId)
    requires t in w.tasks && w.tasks[t].Reading?
    ensures AnswerOf(w, Judge(t)).None? && Apply(w, Judge(t)) == w
  {
  }

  lemma ReadAndChecked(w: World, t: TaskId)
    requires t in w.tasks && w.tasks[t].Reading? && IdOf(w.tasks[t].key).Some?
    ensures var key := w.tasks[t].key; var id := IdOf(key).value;
            AnswerFromTable(w, t)
            == Some(if id !in w.rows || w.rows[id].deleted then Missing(key)
                    else if IsOver(w.rows[id].expiresAt, w.now) then Gone(key)
                    else Resolved(key, w.rows[id].url))
  {
    if Visible(w.rows, IdOf(w.tasks[t].key).value) {
      assert Apply(w, ReadRow(t)) == DoReadRow(w, t);
    }
  }
}
