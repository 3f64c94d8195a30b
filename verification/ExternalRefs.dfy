/** References from a canonical order to the systems it is known in. */
module ExternalRefs {

  datatype Ref = Ref(system: string, entity: string, external: string, channel: string)

  predicate IsOwn(r: Ref, system: string) {
    r.system == system && r.entity == "order"
  }

  /** The references other than the order references of a system. */
  function Others(refs: seq<Ref>, system: string): seq<Ref> {
    if refs == [] then [] else (if IsOwn(refs[0], system) then [] else [refs[0]]) + Others(refs[1..], system)
  }

  /** The order references of a system. */
  function Own(refs: seq<Ref>, system: string): seq<Ref> {
    if refs == [] then [] else (if IsOwn(refs[0], system) then [refs[0]] else []) + Own(refs[1..], system)
  }

  lemma OthersOne(r: Ref, system: string)
    ensures Others([r], system) == if IsOwn(r, system) then [] else [r]
  {
  }

  lemma {:induction false} OthersAppend(a: seq<Ref>, r: Ref, system: string)
    ensures Others(a + [r], system) == Others(a, system) + (if IsOwn(r, system) then [] else [r])
  {
    hide IsOwn;
    var all := a + [r];
    OthersOne(r, system);
    if a == [] {
      assert all == [r];
    } else {
      assert all[0] == a[0] && all[1..] == a[1..] + [r];
      OthersAppend(a[1..], r, system);
      var head, rest, last := if IsOwn(a[0], system) then [] else [a[0]], Others(a[1..], system), Others([r], system);
      assert Others(all, system) == head + Others(all[1..], system);
      assert head + (rest + last) == head + rest + last;
    }
  }

  lemma OwnOne(r: Ref, system: string)
    ensures Own([r], system) == if IsOwn(r, system) then [r] else []
  {
  }

  lemma {:induction false} OwnAppend(a: seq<Ref>, r: Ref, system: string)
    ensures Own(a + [r], system) == Own(a, system) + (if IsOwn(r, system) then [r] else [])
  {
    hide IsOwn;
    var all := a + [r];
    OwnOne(r, system);
    if a == [] {
      assert all == [r];
    } else {
      assert all[0] == a[0] && all[1..] == a[1..] + [r];
      OwnAppend(a[1..], r, system);
      var head, rest, last := if IsOwn(a[0], system) then [a[0]] else [], Own(a[1..], system), Own([r], system);
      assert Own(all, system) == head + Own(all[1..], system);
      assert head + (rest + last) == head + rest + last;
    }
  }

  lemma {:induction false} FilterTwice(refs: seq<Ref>, system: string)
    ensures Others(Others(refs, system), system) == Others(refs, system)
    ensures Own(Others(refs, system), system) == []
  {
    if refs != [] {
      var rest := Others(refs[1..], system);
      FilterTwice(refs[1..], system);
      if !IsOwn(refs[0], system) {
        assert ([refs[0]] + rest)[1..] == rest;
      } else {
        assert [] + rest == rest;
      }
    }
  }

  /** Taking the own references out and putting one in leaves exactly that one, and all others in place. */
  lemma ReplacedOwn(refs: seq<Ref>, system: string, r: Ref)
    requires IsOwn(r, system)
    ensures Own(Others(refs, system) + [r], system) == [r]
    ensures Others(Others(refs, system) + [r], system) == Others(refs, system)
  {
    FilterTwice(refs, system);
    OthersAppend(Others(refs, system), r, system);
    OwnAppend(Others(refs, system), r, system);
  }
}
