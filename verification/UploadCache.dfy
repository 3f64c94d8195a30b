/** The upload cache of scripts/run_phase11_simulation.py. */
module UploadCache {
  import opened Common

  datatype Stored = Stored(uri: string, checksum: string, size: nat, contentType: string)

  /** A call of `put`: what is to be stored, and what the storage returns if it is asked; nothing when it raises. */
  datatype Call = Call(merchant: string, key: string, checksum: string, size: nat, answer: Option<Stored>)

  datatype State = State(cache: map<string, Stored>, puts: nat, bytes: nat, avoided: nat)

  function ObjectKey(merchant: string, key: string, checksum: string): string {
    merchant + ":" + key + ":" + checksum
  }

  function KeyOf(c: Call): string {
    ObjectKey(c.merchant, c.key, c.checksum)
  }

  function Put(s: State, c: Call): (State, Option<Stored>) {
    if KeyOf(c) in s.cache then (s.(avoided := s.avoided + 1), Some(s.cache[KeyOf(c)]))
    else
      match c.answer
      case None => (s, None)
      case Some(stored) => (State(s.cache[KeyOf(c) := stored], s.puts + 1, s.bytes + c.size, s.avoided), Some(stored))
  }

  class InstrumentedStorage {
    var cache: map<string, Stored>
    var puts: nat
    var bytesUploaded: nat
    var duplicateUploadsAvoided: nat

    ghost function Contents(): State
      reads this
    {
      State(cache, puts, bytesUploaded, duplicateUploadsAvoided)
    }

    /** The cache may come from an earlier run. */
    constructor (saved: map<string, Stored>)
      ensures Contents() == State(saved, 0, 0, 0)
    {
      cache, puts, bytesUploaded, duplicateUploadsAvoided := saved, 0, 0, 0;
    }

    method PutObject(c: Call) returns (r: Option<Stored>)
      modifies this
      ensures (Contents(), r) == Put(old(Contents()), c)
    {
      var objectKey := c.merchant + ":" + c.key + ":" + c.checksum;
      if objectKey in cache {
        duplicateUploadsAvoided := duplicateUploadsAvoided + 1;
        return Some(cache[objectKey]);
      }
      if c.answer.None? {
        return None;
      }
      puts := puts + 1;
      bytesUploaded := bytesUploaded + c.size;
      cache := cache[objectKey := c.answer.value];
      r := c.answer;
    }
  }

  // ----- Whole runs, told from the calls -----------------------------------------------

  function Run(s: State, calls: seq<Call>): State {
    if calls == [] then s else Put(Run(s, calls[..|calls| - 1]), calls[|calls| - 1]).0
  }

  /** A call that reaches the storage and is answered, as the first of its key. */
  predicate IsFirst(saved: map<string, Stored>, calls: seq<Call>, i: nat)
    requires i < |calls|
  {
    KeyOf(calls[i]) !in saved && calls[i].answer.Some?
    && forall j :: 0 <= j < i ==> KeyOf(calls[j]) != KeyOf(calls[i]) || calls[j].answer.None?
  }

  /** The uploads of a run. */
  function Uploads(saved: map<string, Stored>, calls: seq<Call>): (r: seq<Call>) {
    if calls == [] then []
    else
      var n := |calls| - 1;
      Uploads(saved, calls[..n]) + (if IsFirst(saved, calls, n) then [calls[n]] else [])
  }

  function SizeSum(calls: seq<Call>): nat {
    if calls == [] then 0 else SizeSum(calls[..|calls| - 1]) + calls[|calls| - 1].size
  }

  /** The calls that raised: not answered, and no answer remembered. */
  function RaisedCount(saved: map<string, Stored>, calls: seq<Call>): nat {
    if calls == [] then 0
    else
      var n := |calls| - 1;
      RaisedCount(saved, calls[..n])
      + (if calls[n].answer.None? && KeyOf(calls[n]) !in saved
            && forall j :: 0 <= j < n ==> KeyOf(calls[j]) != KeyOf(calls[n]) || calls[j].answer.None?
         then 1 else 0)
  }

  /** Whether a key is cached after a run: it was saved, or some call for it was answered. */
  predicate Known(saved: map<string, Stored>, calls: seq<Call>, key: string) {
    key in saved || exists i :: 0 <= i < |calls| && KeyOf(calls[i]) == key && calls[i].answer.Some?
  }

  lemma KnownGrows(saved: map<string, Stored>, calls: seq<Call>, key: string)
    requires calls != []
    ensures var n := |calls| - 1;
            Known(saved, calls, key) <==> Known(saved, calls[..n], key) || (KeyOf(calls[n]) == key && calls[n].answer.Some?)
  {
    hide KeyOf;
    var n := |calls| - 1;
    if i :| 0 <= i < |calls| && KeyOf(calls[i]) == key && calls[i].answer.Some? {
      assert i < n ==> calls[..n][i] == calls[i];
    }
    if i :| 0 <= i < n && KeyOf(calls[..n][i]) == key && calls[..n][i].answer.Some? {
      assert calls[i] == calls[..n][i];
    }
  }

  /** No key is uploaded twice, and none that was saved. */
  predicate Once(saved: map<string, Stored>, uploads: seq<Call>) {
    (forall i, j :: 0 <= i < j < |uploads| ==> KeyOf(uploads[i]) != KeyOf(uploads[j]))
    && (forall i :: 0 <= i < |uploads| ==> KeyOf(uploads[i]) !in saved)
  }

  /** The state agrees with the uploads made: their answers are cached beside what was saved, and the counters are theirs. */
  predicate Ledger(saved: map<string, Stored>, up: seq<Call>, s: State) {
    Once(saved, up)
    && (forall i :: 0 <= i < |up| ==> KeyOf(up[i]) in s.cache && Some(s.cache[KeyOf(up[i])]) == up[i].answer)
    && (forall k <- saved :: k in s.cache && s.cache[k] == saved[k])
    && |s.cache| == |saved| + |up|
    && s.puts == |up| && s.bytes == SizeSum(up)
  }

  ghost predicate Accounted(saved: map<string, Stored>, calls: seq<Call>, s: State) {
    Ledger(saved, Uploads(saved, calls), s)
    && (forall k :: k in s.cache <==> Known(saved, calls, k))
    && s.puts + s.avoided + RaisedCount(saved, calls) == |calls|
  }

  lemma UploadEntersLedger(saved: map<string, Stored>, up: seq<Call>, s: State, c: Call)
    requires Ledger(saved, up, s) && KeyOf(c) !in s.cache && c.answer.Some?
    ensures Ledger(saved, up + [c], Put(s, c).0)
  {
    hide KeyOf;
    var all := up + [c];
    assert all[..|up|] == up;
    forall i | 0 <= i < |up|
      ensures KeyOf(all[i]) != KeyOf(c) && all[i] == up[i]
    {
    }
  }

  lemma KnownAfterPut(saved: map<string, Stored>, calls: seq<Call>, s: State)
    requires calls != [] && forall k :: k in s.cache <==> Known(saved, calls[..|calls| - 1], k)
    ensures forall k :: k in Put(s, calls[|calls| - 1]).0.cache <==> Known(saved, calls, k)
  {
    hide KeyOf, Known;
    forall k ensures k in Put(s, calls[|calls| - 1]).0.cache <==> Known(saved, calls, k) {
      KnownGrows(saved, calls, k);
    }
  }

  /** Each call is an upload, avoided or raised. */
  lemma CallIsOneOf(saved: map<string, Stored>, calls: seq<Call>, s: State)
    requires calls != [] && forall k :: k in s.cache <==> Known(saved, calls[..|calls| - 1], k)
    ensures var n := |calls| - 1;
            var t := Put(s, calls[n]).0;
            && t.puts + t.avoided + RaisedCount(saved, calls) == s.puts + s.avoided + RaisedCount(saved, calls[..n]) + 1
            && (IsFirst(saved, calls, n) <==> KeyOf(calls[n]) !in s.cache && calls[n].answer.Some?)
            && (!IsFirst(saved, calls, n) ==> t == s.(avoided := t.avoided))
  {
    hide KeyOf, Known;
    FirstIffUnknown(saved, calls);
  }

  lemma AccountedStep(saved: map<string, Stored>, calls: seq<Call>, s: State)
    requires calls != [] && Accounted(saved, calls[..|calls| - 1], s)
    ensures Accounted(saved, calls, Put(s, calls[|calls| - 1]).0)
  {
    var n := |calls| - 1;
    var init, c := calls[..n], calls[n];
    var up := Uploads(saved, init);
    KnownAfterPut(saved, calls, s);
    CallIsOneOf(saved, calls, s);
    hide KeyOf, Known, Ledger, Put, RaisedCount, IsFirst;
    if IsFirst(saved, calls, n) {
      UploadEntersLedger(saved, up, s, c);
    } else {
      assert up + [] == up;
      AvoidedKeepsLedger(saved, up, s, Put(s, c).0.avoided);
    }
  }

  lemma AvoidedKeepsLedger(saved: map<string, Stored>, up: seq<Call>, s: State, avoided: nat)
    requires Ledger(saved, up, s)
    ensures Ledger(saved, up, s.(avoided := avoided))
  {
  }

  lemma FirstIffUnknown(saved: map<string, Stored>, calls: seq<Call>)
    requires calls != []
    ensures var n := |calls| - 1;
            (Known(saved, calls[..n], KeyOf(calls[n]))
             <==> KeyOf(calls[n]) in saved
                  || !forall j :: 0 <= j < n ==> KeyOf(calls[j]) != KeyOf(calls[n]) || calls[j].answer.None?)
  {
    hide KeyOf;
    var n := |calls| - 1;
    if j :| 0 <= j < n && KeyOf(calls[j]) == KeyOf(calls[n]) && calls[j].answer.Some? {
      assert calls[..n][j] == calls[j];
    }
  }

  /**
   Over any run: no key is uploaded twice; uploads, avoided ones and raised ones make up
   the calls; the cache grows by the uploads and keeps their answers; the bytes are those
   of the uploads.
   */
  lemma {:induction false} RunIsAccounted(saved: map<string, Stored>, calls: seq<Call>)
    ensures Accounted(saved, calls, Run(State(saved, 0, 0, 0), calls))
  {
    hide Put, KeyOf;
    if calls != [] {
      RunIsAccounted(saved, calls[..|calls| - 1]);
      AccountedStep(saved, calls, Run(State(saved, 0, 0, 0), calls[..|calls| - 1]));
    }
  }

  lemma {:induction false} FirstsAreUploads(saved: map<string, Stored>, calls: seq<Call>, i: nat)
    requires i < |calls| && IsFirst(saved, calls, i)
    ensures calls[i] in Uploads(saved, calls)
  {
    hide KeyOf;
    var n := |calls| - 1;
    if i < n {
      assert IsFirst(saved, calls[..n], i);
      FirstsAreUploads(saved, calls[..n], i);
    }
  }

  /**
   What a call is answered after any run: what was saved under its key, else what the first
   upload of the key was answered, else what the storage answers now, if it answers.
   */
  lemma CallIsAnswered(saved: map<string, Stored>, calls: seq<Call>, c: Call)
    ensures var r := Put(Run(State(saved, 0, 0, 0), calls), c).1;
            && (KeyOf(c) in saved ==> r == Some(saved[KeyOf(c)]))
            && (forall i :: 0 <= i < |calls| && IsFirst(saved, calls, i) && KeyOf(calls[i]) == KeyOf(c) ==> r == calls[i].answer)
            && (!Known(saved, calls, KeyOf(c)) ==> r == c.answer)
  {
    hide KeyOf, IsFirst, Uploads, Run;
    RunIsAccounted(saved, calls);
    forall i | 0 <= i < |calls| && IsFirst(saved, calls, i) && KeyOf(calls[i]) == KeyOf(c)
      ensures Put(Run(State(saved, 0, 0, 0), calls), c).1 == calls[i].answer
    {
      FirstsAreUploads(saved, calls, i);
      var up := Uploads(saved, calls);
      var k :| 0 <= k < |up| && up[k] == calls[i];
    }
  }

  /** The shape of a key, and the bytes of two uploads. */
  lemma OneKey(c: Call, d: Call)
    ensures ObjectKey("m", "k", "c") == "m:k:c"
    ensures SizeSum([c, d]) == c.size + d.size
  {
    assert [c, d][..1] == [c] && [c][..0] == [];
    assert SizeSum([c]) == c.size;
  }

  // ----- The composed key --------------------------------------------------------------

  predicate NoColon(s: string) {
    ':' !in s
  }

  /** With digests of one length the key determines the digest, and merchant and key joined. */
  lemma KeySplits(m: string, k: string, c: string, n: string, l: string, d: string)
    requires |c| == |d|
    ensures ObjectKey(m, k, c) == ObjectKey(n, l, d) <==> m + ":" + k == n + ":" + l && c == d
  {
    var x, y := m + ":" + k, n + ":" + l;
    var a, b := ObjectKey(m, k, c), ObjectKey(n, l, d);
    assert a == x + (":" + c) && b == y + (":" + d);
    if a == b {
      assert |x| == |y|;
      assert a[..|x|] == x && b[..|y|] == y;
      assert a[|x| + 1..] == c && b[|y| + 1..] == d;
    }
  }

  /** Merchants without a colon never share a key. */
  lemma KeyIsInjective(m: string, k: string, c: string, n: string, l: string, d: string)
    requires NoColon(m) && NoColon(n) && |c| == |d|
    ensures ObjectKey(m, k, c) == ObjectKey(n, l, d) <==> m == n && k == l && c == d
  {
    KeySplits(m, k, c, n, l, d);
    var x, y := m + ":" + k, n + ":" + l;
    if x == y {
      if |m| < |n| {
        ColonInside(m, k, n, l);
      } else if |n| < |m| {
        ColonInside(n, l, m, k);
      }
      assert x[..|m|] == m && y[..|n|] == n;
      assert x[|m| + 1..] == k && y[|n| + 1..] == l;
    }
  }

  lemma ColonInside(m: string, k: string, n: string, l: string)
    requires m + ":" + k == n + ":" + l && |m| < |n|
    ensures ':' in n
  {
    var x, y := m + ":" + k, n + ":" + l;
    assert x[|m|] == ':' && y[|m|] == n[|m|];
  }

  /** Two merchants can share a key exactly when one name continues the other behind a colon. */
  lemma MerchantsCollideExactly(m: string, n: string, c: string)
    requires m != n
    ensures (exists k, l :: ObjectKey(m, k, c) == ObjectKey(n, l, c)) <==> m + ":" <= n || n + ":" <= m
  {
    if k, l :| ObjectKey(m, k, c) == ObjectKey(n, l, c) {
      KeySplits(m, k, c, n, l, c);
      var x, y := m + ":" + k, n + ":" + l;
      assert x[..|m|] == m && y[..|n|] == n;
      if |m| < |n| {
        assert y[..|m| + 1] == m + ":";
        assert n[..|m| + 1] == y[..|m| + 1];
      } else if |n| < |m| {
        assert x[..|n| + 1] == n + ":";
        assert m[..|n| + 1] == x[..|n| + 1];
      }
    }
    if m + ":" <= n {
      Collide(m, n, c);
    }
    if n + ":" <= m {
      Collide(n, m, c);
    }
  }

  lemma Collide(m: string, n: string, c: string)
    requires m + ":" <= n
    ensures exists k, l :: ObjectKey(m, k, c) == ObjectKey(n, l, c)
    ensures exists k, l :: ObjectKey(n, k, c) == ObjectKey(m, l, c)
  {
    var rest := n[|m| + 1..];
    assert n == m + ":" + rest;
    assert m + ":" + (rest + ":") == n + ":" + "";
    assert ObjectKey(m, rest + ":", c) == ObjectKey(n, "", c);
  }
}
