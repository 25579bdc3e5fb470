/** Publishing with dedup: which id a message gets, and which publishes reach the queue. */
module Dedup {
  /** What publishMessage reads.  `messageId` is "" when whatsapp-web.js gave none; `userId` is
      the receiving client, which the id must not depend on. */
  datatype Payload = Payload(messageId: string, userId: nat, chatId: string, timestamp: string, body: string,
                             mime: string, isEdited: bool)

  /** SHA-256 in hex is a parameter; only the length of its output is used. */
  ghost predicate IsDigest(sha: string -> string) {
    forall text :: |sha(text)| == 64
  }

  function Normalize(id: string): string {
    if "true_" <= id then id[5..] else if "false_" <= id then id[6..] else id
  }

  function Fallback(p: Payload, sha: string -> string): string
    requires IsDigest(sha)
  {
    "fallback:" + sha(p.chatId + "|" + p.timestamp + "|" + p.body + "|" + p.mime)[..16]
  }

  function BaseId(p: Payload, sha: string -> string): string
    requires IsDigest(sha)
  {
    if Normalize(p.messageId) != "" then Normalize(p.messageId) else Fallback(p, sha)
  }

  function EditHash(p: Payload, sha: string -> string): string
    requires IsDigest(sha)
  {
    sha(p.body)[..12]
  }

  function DedupId(p: Payload, sha: string -> string): string
    requires IsDigest(sha)
  {
    if p.isEdited then BaseId(p, sha) + ":edit:" + EditHash(p, sha) else BaseId(p, sha)
  }

  /** `bare` is `id` without the direction it begins with, if it does. */
  predicate IsBare(id: string, bare: string) {
    || id == "true_" + bare || id == "false_" + bare
    || (id == bare && !("true_" <= id) && !("false_" <= id))
  }

  lemma BareIs(id: string, bare: string)
    requires IsBare(id, bare)
    ensures Normalize(id) == bare
  {
    assert "true_"[0] != "false_"[0];
  }

  /** The author's copy (`true_`) and a recipient's (`false_`) of one message share an id,
      whoever received them. */
  lemma DirectionDoesNotMatter(p: Payload, id: string, sent: string, received: string, user: nat, sha: string -> string)
    requires IsDigest(sha) && {sent, received} <= {"true_", "false_"}
    ensures DedupId(p.(messageId := sent + id), sha) == DedupId(p.(messageId := received + id, userId := user), sha)
  {
    BareIs(sent + id, id);
    BareIs(received + id, id);
  }

  /** Two messages share an id exactly when they have one id from WhatsApp but for its direction:
      different messages never collapse, the copies of one always do. */
  lemma IdsAreMessages(p: Payload, q: Payload, a: string, b: string, sha: string -> string)
    requires IsDigest(sha) && !p.isEdited && !q.isEdited
    requires IsBare(p.messageId, a) && IsBare(q.messageId, b) && a != "" && b != ""
    ensures DedupId(p, sha) == DedupId(q, sha) <==> a == b
  {
    BareIs(p.messageId, a);
    BareIs(q.messageId, b);
  }

  /** Two messages without an id share one exactly when the shortened digests of chat, time, body and
      media type are the same, whoever received them. */
  lemma FallbackIds(p: Payload, q: Payload, sha: string -> string)
    requires IsDigest(sha) && !p.isEdited && !q.isEdited && IsBare(p.messageId, "") && IsBare(q.messageId, "")
    ensures DedupId(p, sha) == DedupId(q, sha) <==>
            sha(p.chatId + "|" + p.timestamp + "|" + p.body + "|" + p.mime)[..16]
            == sha(q.chatId + "|" + q.timestamp + "|" + q.body + "|" + q.mime)[..16]
  {
    BareIs(p.messageId, "");
    BareIs(q.messageId, "");
    assert DedupId(p, sha)[9..] == sha(p.chatId + "|" + p.timestamp + "|" + p.body + "|" + p.mime)[..16];
    assert DedupId(q, sha)[9..] == sha(q.chatId + "|" + q.timestamp + "|" + q.body + "|" + q.mime)[..16];
  }

  lemma SameTail(a: string, b: string, x: string, y: string)
    requires |x| == |y| && a + x == b + y
    ensures a == b && x == y
  {
    assert (a + x)[..|a|] == a && (b + y)[..|b|] == b;
    assert (a + x)[|a|..] == x && (b + y)[|b|..] == y;
  }

  /** Two edits share an id exactly when they revise one message with one shortened hash of the body;
      an edit never has the id of the message it revises, nor of another one, unless WhatsApp gave that
      one an id that ends like an edit's. */
  lemma EditIds(p: Payload, q: Payload, a: string, b: string, sha: string -> string)
    requires IsDigest(sha) && p.isEdited
    requires IsBare(p.messageId, a) && IsBare(q.messageId, b) && a != "" && b != ""
    ensures q.isEdited ==> (DedupId(p, sha) == DedupId(q, sha) <==> a == b && sha(p.body)[..12] == sha(q.body)[..12])
    ensures !q.isEdited ==> (DedupId(p, sha) == DedupId(q, sha) <==> b == a + ":edit:" + sha(p.body)[..12])
    ensures !q.isEdited && a == b ==> DedupId(p, sha) != DedupId(q, sha)
  {
    BareIs(p.messageId, a);
    BareIs(q.messageId, b);
    if q.isEdited && DedupId(p, sha) == DedupId(q, sha) {
      SameTail(a + ":edit:", b + ":edit:", sha(p.body)[..12], sha(q.body)[..12]);
      SameTail(a, b, ":edit:", ":edit:");
    }
  }

  /** A publish of one id at a time of the server's clock. */
  datatype Attempt = Attempt(id: string, time: nat)

  /** SET key NX EX ttl: taken when there is no key or it has expired. */
  predicate Taken(keys: map<string, nat>, a: Attempt) {
    a.id in keys ==> keys[a.id] <= a.time
  }

  function Keys(run: seq<Attempt>, ttl: nat): map<string, nat> {
    if run == [] then map[]
    else
      var keys, a := Keys(run[..|run| - 1], ttl), run[|run| - 1];
      if Taken(keys, a) then keys[a.id := a.time + ttl] else keys
  }

  /** Attempt `n` of the run is enqueued. */
  predicate IsEnqueued(run: seq<Attempt>, ttl: nat, n: nat) {
    n < |run| && Taken(Keys(run[..n], ttl), run[n])
  }

  predicate Clocked(run: seq<Attempt>) {
    forall i, j :: 0 <= i < j < |run| ==> run[i].time <= run[j].time
  }

  ghost predicate EnqueuedAs(run: seq<Attempt>, ttl: nat, i: nat, id: string) {
    IsEnqueued(run, ttl, i) && run[i].id == id
  }

  /** Attempt `i` is the last one before `n` that enqueued `id`. */
  ghost predicate LastBefore(run: seq<Attempt>, ttl: nat, n: nat, id: string, i: nat) {
    i < n && EnqueuedAs(run, ttl, i, id) && forall j :: i < j < n ==> !EnqueuedAs(run, ttl, j, id)
  }

  lemma KeysAfterOne(run: seq<Attempt>, ttl: nat, n: nat, id: string)
    requires 0 < n <= |run|
    ensures var before, after := Keys(run[..n - 1], ttl), Keys(run[..n], ttl);
            if EnqueuedAs(run, ttl, n - 1, id) then id in after && after[id] == run[n - 1].time + ttl
            else (id in after <==> id in before) && (id in after ==> after[id] == before[id])
  {
    assert run[..n][..n - 1] == run[..n - 1];
  }

  /** The key of an id carries the time of its latest enqueue. */
  lemma {:induction false} KeyIsLatestEnqueue(run: seq<Attempt>, ttl: nat, n: nat, id: string)
    requires n <= |run|
    ensures var keys := Keys(run[..n], ttl);
            if id in keys then exists i: nat :: LastBefore(run, ttl, n, id, i) && keys[id] == run[i].time + ttl
            else forall i :: 0 <= i < n ==> !EnqueuedAs(run, ttl, i, id)
  {
    if n > 0 {
      KeyIsLatestEnqueue(run, ttl, n - 1, id);
      KeysAfterOne(run, ttl, n, id);
      if EnqueuedAs(run, ttl, n - 1, id) {
        assert LastBefore(run, ttl, n, id, n - 1);
      } else if id in Keys(run[..n - 1], ttl) {
        var i: nat :| LastBefore(run, ttl, n - 1, id, i) && Keys(run[..n - 1], ttl)[id] == run[i].time + ttl;
        assert LastBefore(run, ttl, n, id, i);
      }
    }
  }

  /** Dedup is exact: an attempt is enqueued if and only if no attempt of the same id was
      enqueued less than DEDUP_TTL before it.  So enqueues of one id are at least DEDUP_TTL apart,
      and a publish is dropped only for an id really enqueued within DEDUP_TTL. */
  lemma DedupIsExact(run: seq<Attempt>, ttl: nat, n: nat)
    requires Clocked(run) && n < |run|
    ensures IsEnqueued(run, ttl, n) <==>
            forall i :: 0 <= i < n && EnqueuedAs(run, ttl, i, run[n].id) ==> run[n].time >= run[i].time + ttl
  {
    var id, keys := run[n].id, Keys(run[..n], ttl);
    KeyIsLatestEnqueue(run, ttl, n, id);
    if id in keys {
      var last: nat :| LastBefore(run, ttl, n, id, last) && keys[id] == run[last].time + ttl;
      forall i | 0 <= i < n && EnqueuedAs(run, ttl, i, id) ensures run[i].time <= run[last].time {
        assert i <= last;
      }
    }
  }

  /** Two different messages never take one another's place: published one after the other, after any
      publishes with other ids, both are enqueued. */
  lemma DifferentMessagesAreEnqueued(
    run: seq<Attempt>, ttl: nat, p: Payload, q: Payload, a: string, b: string, sha: string -> string, t: nat, u: nat)
    requires IsDigest(sha) && !p.isEdited && !q.isEdited && a != "" && b != "" && a != b
    requires IsBare(p.messageId, a) && IsBare(q.messageId, b)
    requires Clocked(run + [Attempt(DedupId(p, sha), t), Attempt(DedupId(q, sha), u)])
    requires forall i :: 0 <= i < |run| ==> run[i].id != a && run[i].id != b
    ensures var both := run + [Attempt(DedupId(p, sha), t), Attempt(DedupId(q, sha), u)];
            IsEnqueued(both, ttl, |run|) && IsEnqueued(both, ttl, |run| + 1)
  {
    var both := run + [Attempt(DedupId(p, sha), t), Attempt(DedupId(q, sha), u)];
    BareIs(p.messageId, a);
    BareIs(q.messageId, b);
    assert both[|run|].id == a && both[|run| + 1].id == b;
    DedupIsExact(both, ttl, |run|);
    DedupIsExact(both, ttl, |run| + 1);
  }

  /** Redis as publishMessage sees it. */
  class Publisher {
    var keys: map<string, nat>
    var queue: seq<Payload>      // messages:in, newest first
    ghost var run: seq<Attempt>

    ghost predicate Valid(ttl: nat)
      reads this
    {
      keys == Keys(run, ttl)
    }

    /** publishMessage: the rewritten payload joins the queue exactly when the attempt is taken. */
    method PublishMessage(payload: Payload, sha: string -> string, ttl: nat, now: nat) returns (enqueued: bool)
      requires Valid(ttl) && IsDigest(sha)
      modifies this
      ensures Valid(ttl) && run == old(run) + [Attempt(DedupId(payload, sha), now)]
      ensures enqueued == IsEnqueued(run, ttl, |old(run)|)
      ensures queue == if enqueued then [payload.(messageId := DedupId(payload, sha))] + old(queue) else old(queue)
    {
      var id := Normalize(payload.messageId);
      if id == "" { id := Fallback(payload, sha); }
      if payload.isEdited { id := id + ":edit:" + sha(payload.body)[..12]; }
      run := run + [Attempt(id, now)];
      assert run[..|old(run)|] == old(run);
      enqueued := !(id in keys && now < keys[id]);
      if enqueued {
        keys := keys[id := now + ttl];
        queue := [payload.(messageId := id)] + queue;
      }
    }
  }
}
