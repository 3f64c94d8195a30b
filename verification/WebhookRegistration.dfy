/** Registering the order webhooks: existing ones are listed first and used again. */
module WebhookRegistration {
  import opened Common

  datatype Hook = Hook(id: nat, scope: string, destination: string)

  datatype Platform = Platform(hooks: seq<Hook>, nextId: nat)

  /** How a creation goes: refused, created with its answer lost, or created and answered. */
  datatype Answer = Refused | Lost | Created

  const SCOPES: seq<string> := ["store/order/created", "store/order/updated", "store/order/statusUpdated"]

  /** `existing_by_scope`: of several hooks of a scope the last one counts. */
  function ExistingId(hooks: seq<Hook>, scope: string, url: string): (r: Option<nat>)
    ensures r.Some? ==> exists i :: 0 <= i < |hooks| && hooks[i] == Hook(r.value, scope, url)
  {
    if hooks == [] then None
    else
      var h := hooks[|hooks| - 1];
      if h.scope == scope && h.destination == url then Some(h.id) else ExistingId(hooks[..|hooks| - 1], scope, url)
  }

  /** One scope: its hook's id, or nothing when the request raises. */
  function RegisterScope(p: Platform, listed: seq<Hook>, scope: string, url: string, answer: Answer): (Platform, Option<nat>) {
    match ExistingId(listed, scope, url)
    case Some(id) => (p, Some(id))
    case None =>
      var created := Platform(p.hooks + [Hook(p.nextId, scope, url)], p.nextId + 1);
      match answer
      case Refused => (p, None)
      case Lost => (created, None)
      case Created => (created, Some(p.nextId))
  }

  /** The loop over the first scopes; the first that raises ends it. */
  function RegisterScopes(p: Platform, listed: seq<Hook>, scopes: seq<string>, url: string, answers: string -> Answer): (Platform, Option<seq<nat>>) {
    if scopes == [] then (p, Some([]))
    else
      var n := |scopes| - 1;
      var (q, ids) := RegisterScopes(p, listed, scopes[..n], url, answers);
      match ids
      case None => (q, None)
      case Some(done) =>
        var (r, id) := RegisterScope(q, listed, scopes[n], url, answers(scopes[n]));
        (r, if id.Some? then Some(done + [id.value]) else None)
  }

  /** `register_webhooks`: the hooks are listed once, before the loop. */
  function Register(p: Platform, url: string, answers: string -> Answer): (Platform, Option<seq<nat>>) {
    RegisterScopes(p, p.hooks, SCOPES, url, answers)
  }

  class Registrar {
    var hooks: seq<Hook>
    var nextId: nat

    ghost function Contents(): Platform
      reads this
    {
      Platform(hooks, nextId)
    }

    method RegisterWebhooks(url: string, answers: string -> Answer) returns (ids: Option<seq<nat>>)
      modifies this
      ensures (Contents(), ids) == Register(old(Contents()), url, answers)
    {
      var listed := hooks;
      var webhookIds: seq<nat> := [];
      for i := 0 to |SCOPES|
        invariant listed == old(hooks)
        invariant (Contents(), Some(webhookIds)) == RegisterScopes(old(Contents()), listed, SCOPES[..i], url, answers)
      {
        assert SCOPES[..i + 1][..i] == SCOPES[..i];
        var scope := SCOPES[i];
        var existing := ExistingId(listed, scope, url);
        if existing.Some? {
          webhookIds := webhookIds + [existing.value];
        } else {
          if answers(scope) == Refused {
            Stops(old(Contents()), listed, SCOPES, url, answers, i + 1);
            return None;
          }
          var id := nextId;
          hooks := hooks + [Hook(id, scope, url)];
          nextId := nextId + 1;
          if answers(scope) == Lost {
            Stops(old(Contents()), listed, SCOPES, url, answers, i + 1);
            return None;
          }
          webhookIds := webhookIds + [id];
        }
      }
      assert SCOPES[..|SCOPES|] == SCOPES;
      ids := Some(webhookIds);
    }
  }

  lemma {:induction false} Stops(p: Platform, listed: seq<Hook>, scopes: seq<string>, url: string, answers: string -> Answer, k: nat)
    requires k <= |scopes| && RegisterScopes(p, listed, scopes[..k], url, answers).1.None?
    ensures RegisterScopes(p, listed, scopes, url, answers) == (RegisterScopes(p, listed, scopes[..k], url, answers).0, None)
    decreases |scopes|
  {
    if k < |scopes| {
      assert scopes[..|scopes| - 1][..k] == scopes[..k];
      Stops(p, listed, scopes[..|scopes| - 1], url, answers, k);
    } else {
      assert scopes[..k] == scopes;
    }
  }

  // ----- Guarantees --------------------------------------------------------------------

  /** How many hooks deliver a scope to a destination. */
  function Count(hooks: seq<Hook>, scope: string, url: string): nat {
    if hooks == [] then 0
    else
      var h := hooks[|hooks| - 1];
      Count(hooks[..|hooks| - 1], scope, url) + (if h.scope == scope && h.destination == url then 1 else 0)
  }

  lemma {:induction false} ListedIffCounted(hooks: seq<Hook>, scope: string, url: string)
    ensures ExistingId(hooks, scope, url).Some? <==> Count(hooks, scope, url) > 0
  {
    if hooks != [] {
      ListedIffCounted(hooks[..|hooks| - 1], scope, url);
    }
  }

  predicate Distinct(scopes: seq<string>) {
    forall i, j :: 0 <= i < j < |scopes| ==> scopes[i] != scopes[j]
  }

  /** The number of hooks after a try: only a missing hook of the wanted ones may be added, and only once. */
  predicate AddsAtMostOne(before: nat, after: nat, wanted: bool) {
    after == before || (wanted && before == 0 && after == 1)
  }

  lemma CountPost(hooks: seq<Hook>, h: Hook, scope: string, dest: string)
    ensures Count(hooks + [h], scope, dest) == Count(hooks, scope, dest) + (if h.scope == scope && h.destination == dest then 1 else 0)
  {
    assert (hooks + [h])[..|hooks|] == hooks;
  }

  lemma {:induction false} CountAfter(p: Platform, scopes: seq<string>, url: string, answers: string -> Answer, scope: string, dest: string)
    requires Distinct(scopes)
    ensures var (q, ids) := RegisterScopes(p, p.hooks, scopes, url, answers);
            var before, after := Count(p.hooks, scope, dest), Count(q.hooks, scope, dest);
            var wanted := scope in scopes && dest == url;
            AddsAtMostOne(before, after, wanted) && (ids.Some? && wanted ==> after > 0)
  {
    hide ExistingId, Count;
    if scopes != [] {
      var n := |scopes| - 1;
      var init, last := scopes[..n], scopes[n];
      assert scopes == init + [last];
      CountAfter(p, init, url, answers, scope, dest);
      var (q, ids) := RegisterScopes(p, p.hooks, init, url, answers);
      ListedIffCounted(p.hooks, scope, dest);
      CountPost(q.hooks, Hook(q.nextId, last, url), scope, dest);
    }
  }

  /** The returned ids are those of hooks that exist, one for each scope in turn. */
  lemma {:induction false} IdsAreHooks(p: Platform, scopes: seq<string>, url: string, answers: string -> Answer)
    ensures var (q, ids) := RegisterScopes(p, p.hooks, scopes, url, answers);
            p.hooks <= q.hooks
            && (ids.Some? ==> |ids.value| == |scopes|
                              && forall i :: 0 <= i < |scopes| ==> Hook(ids.value[i], scopes[i], url) in q.hooks)
  {
    if scopes != [] {
      IdsAreHooks(p, scopes[..|scopes| - 1], url, answers);
    }
  }

  /** The platform after some tries. */
  function Tries(p: Platform, url: string, rounds: seq<string -> Answer>): Platform
    decreases |rounds|
  {
    if rounds == [] then p else Tries(Register(p, url, rounds[0]).0, url, rounds[1..])
  }

  lemma {:induction false} TriesNeverDouble(p: Platform, url: string, rounds: seq<string -> Answer>, scope: string, dest: string)
    ensures AddsAtMostOne(Count(p.hooks, scope, dest), Count(Tries(p, url, rounds).hooks, scope, dest), scope in SCOPES && dest == url)
    decreases |rounds|
  {
    hide Count, RegisterScopes;
    if rounds != [] {
      CountAfter(p, SCOPES, url, rounds[0], scope, dest);
      TriesNeverDouble(Register(p, url, rounds[0]).0, url, rounds[1..], scope, dest);
    }
  }

  lemma {:induction false} NothingMissing(p: Platform, scopes: seq<string>, url: string, answers: string -> Answer)
    requires forall i :: 0 <= i < |scopes| ==> ExistingId(p.hooks, scopes[i], url).Some?
    ensures RegisterScopes(p, p.hooks, scopes, url, answers).0 == p && RegisterScopes(p, p.hooks, scopes, url, answers).1.Some?
  {
    hide ExistingId;
    if scopes != [] {
      NothingMissing(p, scopes[..|scopes| - 1], url, answers);
    }
  }

  /**
   Registration after any number of tries that failed or lost answers: hooks of other
   destinations and scopes stay as they were; each wanted scope has exactly one hook, or as
   many as it had; the ids returned are theirs; and registering once more creates nothing.
   */
  lemma RegistrationIsIdempotent(p: Platform, url: string, rounds: seq<string -> Answer>, last: string -> Answer, again: string -> Answer)
    requires Register(Tries(p, url, rounds), url, last).1.Some?
    ensures var (q, ids) := Register(Tries(p, url, rounds), url, last);
            (forall scope, dest :: Count(q.hooks, scope, dest)
               == if scope in SCOPES && dest == url && Count(p.hooks, scope, dest) == 0 then 1 else Count(p.hooks, scope, dest))
            && |ids.value| == 3 && (forall i :: 0 <= i < 3 ==> Hook(ids.value[i], SCOPES[i], url) in q.hooks)
            && Register(q, url, again).0 == q && Register(q, url, again).1.Some?
  {
    hide Count, RegisterScopes, ExistingId;
    var t := Tries(p, url, rounds);
    var q := Register(t, url, last).0;
    forall scope, dest
      ensures Count(q.hooks, scope, dest)
              == if scope in SCOPES && dest == url && Count(p.hooks, scope, dest) == 0 then 1 else Count(p.hooks, scope, dest)
    {
      TriesNeverDouble(p, url, rounds, scope, dest);
      CountAfter(t, SCOPES, url, last, scope, dest);
    }
    IdsAreHooks(t, SCOPES, url, last);
    forall i | 0 <= i < |SCOPES|
      ensures ExistingId(q.hooks, SCOPES[i], url).Some?
    {
      ListedIffCounted(q.hooks, SCOPES[i], url);
      assert SCOPES[i] in SCOPES;
    }
    NothingMissing(q, SCOPES, url, again);
  }

  // ----- One try, scope by scope -------------------------------------------------------

  /** A hook of the scope has to be created, and that raises. */
  predicate Raises(p: Platform, url: string, answers: string -> Answer, scope: string) {
    Count(p.hooks, scope, url) == 0 && answers(scope) != Created
  }

  /** The number of hooks of a scope after a try: one is made for it if none was there, no scope before it raised and it was not refused. */
  lemma {:induction false} ScopesAfterTry(p: Platform, scopes: seq<string>, url: string, answers: string -> Answer, i: nat)
    requires Distinct(scopes) && i < |scopes|
    ensures var (q, ids) := RegisterScopes(p, p.hooks, scopes, url, answers);
            var before := Count(p.hooks, scopes[i], url);
            && Count(q.hooks, scopes[i], url)
               == (if before > 0 then before
                   else if (exists j :: 0 <= j < i && Raises(p, url, answers, scopes[j])) || answers(scopes[i]) == Refused then 0
                   else 1)
            && (ids.None? <==> exists j :: 0 <= j < |scopes| && Raises(p, url, answers, scopes[j]))
  {
    hide ExistingId, Count;
    var n := |scopes| - 1;
    var init, last := scopes[..n], scopes[n];
    assert scopes == init + [last];
    ListedIffCounted(p.hooks, last, url);
    var (q, ids) := RegisterScopes(p, p.hooks, init, url, answers);
    CountPost(q.hooks, Hook(q.nextId, last, url), scopes[i], url);
    RaisesBefore(p, scopes, url, answers);
    if i < n {
      ScopesAfterTry(p, init, url, answers, i);
      assert init[i] == scopes[i] && forall j :: 0 <= j < i ==> init[j] == scopes[j];
    } else {
      CountAfter(p, init, url, answers, last, url);
      if n > 0 {
        ScopesAfterTry(p, init, url, answers, 0);
      }
    }
  }

  lemma RaisesBefore(p: Platform, scopes: seq<string>, url: string, answers: string -> Answer)
    requires scopes != []
    ensures var n := |scopes| - 1;
            (exists j :: 0 <= j < |scopes| && Raises(p, url, answers, scopes[j]))
            <==> Raises(p, url, answers, scopes[n]) || exists j :: 0 <= j < n && Raises(p, url, answers, scopes[..n][j])
  {
    hide Raises;
    var n := |scopes| - 1;
    if j :| 0 <= j < |scopes| && Raises(p, url, answers, scopes[j]) {
      assert j < n ==> scopes[..n][j] == scopes[j];
    }
  }

  /** Of several hooks of a scope and destination the last one is used again. */
  lemma {:induction false} LastIsUsed(hooks: seq<Hook>, scope: string, url: string, k: nat)
    requires k < |hooks| && hooks[k].scope == scope && hooks[k].destination == url
    requires forall j :: k < j < |hooks| ==> hooks[j].scope != scope || hooks[j].destination != url
    ensures ExistingId(hooks, scope, url) == Some(hooks[k].id)
  {
    if k < |hooks| - 1 {
      LastIsUsed(hooks[..|hooks| - 1], scope, url, k);
    }
  }

  /** The ids returned: of a hook that was listed the last one's, else a new one. */
  lemma {:induction false} IdsAreReused(p: Platform, scopes: seq<string>, url: string, answers: string -> Answer, i: nat)
    requires i < |scopes| && RegisterScopes(p, p.hooks, scopes, url, answers).1.Some?
    ensures var (q, ids) := RegisterScopes(p, p.hooks, scopes, url, answers);
            |ids.value| == |scopes| && q.nextId >= p.nextId
            && match ExistingId(p.hooks, scopes[i], url)
               case Some(id) => ids.value[i] == id
               case None => p.nextId <= ids.value[i] < q.nextId
  {
    hide ExistingId;
    var n := |scopes| - 1;
    IdsAreHooks(p, scopes[..n], url, answers);
    if i < n {
      IdsAreReused(p, scopes[..n], url, answers, i);
    } else if n > 0 {
      IdsAreReused(p, scopes[..n], url, answers, 0);
    }
  }

  /**
   One try at registering, exactly: it raises when a missing hook is not created and answered;
   hooks are made for the missing scopes up to there, in the order of the three topics; and
   an id returned is that of the last hook listed for its topic, or a new one.
   */
  lemma TryIsExact(p: Platform, url: string, answers: string -> Answer, i: nat)
    requires i < 3
    ensures var topics := ["store/order/created", "store/order/updated", "store/order/statusUpdated"];
            var (q, ids) := Register(p, url, answers);
            var before := Count(p.hooks, topics[i], url);
            && Count(q.hooks, topics[i], url)
               == (if before > 0 then before
                   else if (exists j :: 0 <= j < i && Raises(p, url, answers, topics[j])) || answers(topics[i]) == Refused then 0
                   else 1)
            && (ids.None? <==> exists j :: 0 <= j < 3 && Raises(p, url, answers, topics[j]))
            && (ids.Some? ==>
                 |ids.value| == 3
                 && match ExistingId(p.hooks, topics[i], url)
                    case Some(id) => ids.value[i] == id
                    case None => ids.value[i] >= p.nextId)
  {
    hide Count, RegisterScopes, ExistingId, Raises;
    ScopesAfterTry(p, SCOPES, url, answers, i);
    if Register(p, url, answers).1.Some? {
      IdsAreReused(p, SCOPES, url, answers, i);
    }
  }
}
