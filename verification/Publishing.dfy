/** Publishing products to BigCommerce: the connector updates by SKU, which the platform itself does not. */
module Publishing {
  import opened Common

  datatype Body = Body(name: Option<string>, price: int, weight: int)

  datatype Product = Product(id: nat, sku: string, body: Body)

  datatype Action = PublishProduct | CreateProduct | UpdateProduct

  datatype Request = Request(action: Action, key: string, sku: string, body: Body)

  /** How the calls to the platform go: a failed look-up or a refused write changes nothing; an applied write may lose its answer. */
  datatype Fate = LookUpFails | WriteFails | AnswerLost | Answered

  /** The platform's catalogue and the results the idempotency service remembers. */
  datatype World = World(products: seq<Product>, nextId: nat, done: map<(Action, string), nat>)

  // ----- The platform ------------------------------------------------------------------

  function IndexOfSku(products: seq<Product>, sku: string): (k: nat)
    ensures k <= |products|
    ensures k < |products| ==> products[k].sku == sku
    ensures forall i :: 0 <= i < k ==> products[i].sku != sku
  {
    if products == [] || products[0].sku == sku then 0 else 1 + IndexOfSku(products[1..], sku)
  }

  /** `_find_product_by_sku`: the platform filters exactly, the connector takes the first. */
  function Find(w: World, sku: string): Option<Product> {
    var k := IndexOfSku(w.products, sku);
    if k < |w.products| then Some(w.products[k]) else None
  }

  function IndexOfId(products: seq<Product>, id: nat): (k: nat)
    ensures k <= |products|
    ensures k < |products| ==> products[k].id == id
    ensures forall i :: 0 <= i < k ==> products[i].id != id
  {
    if products == [] || products[0].id == id then 0 else 1 + IndexOfId(products[1..], id)
  }

  function Post(w: World, sku: string, body: Body): World {
    w.(products := w.products + [Product(w.nextId, sku, body)], nextId := w.nextId + 1)
  }

  function Put(w: World, id: nat, sku: string, body: Body): World {
    var k := IndexOfId(w.products, id);
    if k < |w.products| then w.(products := w.products[k := Product(id, sku, body)]) else w
  }

  // ----- The connector -----------------------------------------------------------------

  /** The write the connector decides on after its look-up. */
  function Apply(w: World, sku: string, body: Body): (World, nat) {
    match Find(w, sku)
    case Some(p) => (Put(w, p.id, sku, body), p.id)
    case None => (Post(w, sku, body), w.nextId)
  }

  function Key(r: Request): (Action, string) {
    (r.action, r.key)
  }

  /** `execute_mutation` for a product; no result when it raises. */
  function Publish(w: World, r: Request, fate: Fate): (World, Option<nat>) {
    if Key(r) in w.done then (w, Some(w.done[Key(r)]))
    else
      match fate
      case LookUpFails => (w, None)
      case WriteFails => (w, None)
      case AnswerLost => (Apply(w, r.sku, r.body).0, None)
      case Answered =>
        var (w2, id) := Apply(w, r.sku, r.body);
        (w2.(done := w2.done[Key(r) := id]), Some(id))
  }

  datatype Call = Call(request: Request, fate: Fate)

  function Run(w: World, calls: seq<Call>): World {
    if calls == [] then w
    else
      var c := calls[|calls| - 1];
      Publish(Run(w, calls[..|calls| - 1]), c.request, c.fate).0
  }

  class Publisher {
    var products: seq<Product>
    var nextId: nat
    var done: map<(Action, string), nat>

    ghost function Contents(): World
      reads this
    {
      World(products, nextId, done)
    }

    method FindProductBySku(sku: string) returns (found: Option<Product>)
      ensures found == Find(Contents(), sku)
    {
      for i := 0 to |products|
        invariant forall j :: 0 <= j < i ==> products[j].sku != sku
      {
        if products[i].sku == sku {
          return Some(products[i]);
        }
      }
      found := None;
    }

    /** The two requests of the publish branch; whether they get through is up to the platform. */
    method ExecuteMutation(r: Request, fate: Fate) returns (ref: Option<nat>)
      modifies this`products, this`nextId
      ensures Key(r) !in done ==>
                var (w, id) := Publish(old(Contents()), r, fate);
                Contents() == w.(done := old(done)) && ref == id
    {
      if fate == LookUpFails {
        return None;
      }
      var existing := FindProductBySku(r.sku);
      if fate == WriteFails {
        return None;
      }
      var id;
      match existing {
        case Some(p) =>
          id := p.id;
          var k := IndexOfId(products, id);
          if k < |products| {
            products := products[k := Product(id, r.sku, r.body)];
          }
        case None =>
          id := nextId;
          products := products + [Product(id, r.sku, r.body)];
          nextId := nextId + 1;
      }
      ref := if fate == AnswerLost then None else Some(id);
    }

    method PublishProduct(r: Request, fate: Fate) returns (ref: Option<nat>)
      modifies this
      ensures (Contents(), ref) == Publish(old(Contents()), r, fate)
    {
      if Key(r) in done {
        return Some(done[Key(r)]);
      }
      ref := ExecuteMutation(r, fate);
      if ref.Some? {
        done := done[Key(r) := ref.value];
      }
    }
  }

  // ----- What publishing keeps ---------------------------------------------------------

  /** A catalogue in which no SKU and no id occurs twice. */
  predicate Distinct(w: World) {
    (forall i, j :: 0 <= i < j < |w.products| ==> w.products[i].sku != w.products[j].sku && w.products[i].id != w.products[j].id)
    && (forall i :: 0 <= i < |w.products| ==> w.products[i].id < w.nextId)
  }

  /** A call whose write reaches the platform. */
  predicate Writes(w: World, c: Call) {
    Key(c.request) !in w.done && (c.fate == AnswerLost || c.fate == Answered)
  }

  lemma IndexAfterUpdate(a: seq<Product>, b: seq<Product>, sku: string)
    requires |a| == |b| && forall i :: 0 <= i < |a| ==> a[i].sku == b[i].sku
    ensures IndexOfSku(a, sku) == IndexOfSku(b, sku)
  {
    var k, l := IndexOfSku(a, sku), IndexOfSku(b, sku);
    if k < |a| {
      assert b[k].sku == sku;
    }
    if l < |b| {
      assert a[l].sku == sku;
    }
  }

  lemma {:induction false} IndexAfterPost(a: seq<Product>, p: Product, sku: string)
    ensures IndexOfSku(a + [p], sku)
            == if IndexOfSku(a, sku) < |a| then IndexOfSku(a, sku) else if p.sku == sku then |a| else |a| + 1
  {
    var k, l := IndexOfSku(a, sku), IndexOfSku(a + [p], sku);
    assert (a + [p])[|a|] == p;
    assert forall i :: 0 <= i < |a| ==> (a + [p])[i] == a[i];
  }

  lemma ApplyEffect(w: World, sku: string, body: Body, other: string)
    requires Distinct(w)
    ensures var (t, id) := Apply(w, sku, body);
            Distinct(t) && t.done == w.done
            && Find(t, other) == if other == sku then Some(Product(id, sku, body)) else Find(w, other)
    ensures Find(w, sku).Some? ==> Apply(w, sku, body).1 == Find(w, sku).value.id
  {
    hide IndexOfSku;
    var (t, id) := Apply(w, sku, body);
    var k := IndexOfSku(w.products, sku);
    if k < |w.products| {
      assert IndexOfId(w.products, id) == k;
      IndexAfterUpdate(w.products, t.products, other);
    } else {
      IndexAfterPost(w.products, Product(id, sku, body), other);
    }
  }

  lemma PublishEffect(w: World, c: Call, sku: string)
    requires Distinct(w)
    ensures var (t, r) := Publish(w, c.request, c.fate);
            Distinct(t)
            && (if Writes(w, c) && c.request.sku == sku
                then Find(t, sku).Some? && Find(t, sku).value.body == c.request.body
                     && (Find(w, sku).Some? ==> Find(t, sku).value.id == Find(w, sku).value.id)
                     && (r.Some? ==> r.value == Find(t, sku).value.id)
                else Find(t, sku) == Find(w, sku))
  {
    hide Apply, Find;
    if Writes(w, c) {
      ApplyEffect(w, c.request.sku, c.request.body, sku);
      DoneIsNotLookedAt(Apply(w, c.request.sku, c.request.body).0, sku);
    }
  }

  lemma DoneIsNotLookedAt(w: World, sku: string)
    ensures forall done :: Find(w.(done := done), sku) == Find(w, sku)
    ensures forall done :: Distinct(w.(done := done)) <==> Distinct(w)
  {
  }

  /** The payload of the last write for a SKU, or what was there before. */
  function LastBody(w: World, calls: seq<Call>, sku: string): Option<Body> {
    if calls == [] then if Find(w, sku).Some? then Some(Find(w, sku).value.body) else None
    else
      var init, c := calls[..|calls| - 1], calls[|calls| - 1];
      if Writes(Run(w, init), c) && c.request.sku == sku then Some(c.request.body) else LastBody(w, init, sku)
  }

  /**
   Whatever answers are lost and whatever is repeated: never two products of one SKU, a
   product keeps its id, and a SKU holds the payload of its last write.
   */
  lemma {:induction false} PublishingKeepsSkus(w: World, calls: seq<Call>, sku: string)
    requires Distinct(w)
    ensures var t := Run(w, calls);
            Distinct(t)
            && (Find(w, sku).Some? ==> Find(t, sku).Some? && Find(t, sku).value.id == Find(w, sku).value.id)
            && (if Find(t, sku).Some? then Some(Find(t, sku).value.body) else None) == LastBody(w, calls, sku)
  {
    hide Publish, Find, Distinct;
    if calls != [] {
      var init := calls[..|calls| - 1];
      PublishingKeepsSkus(w, init, sku);
      PublishEffect(Run(w, init), calls[|calls| - 1], sku);
    }
  }

  /**
   What a call is answered: the remembered id under a known key, else the id of the product
   it wrote if the answer arrives. Exactly the answered ones are remembered, under action and key.
   A call of a known key, and one whose look-up or write fails, leaves the catalogue as it is.
   */
  lemma CallIsAnswered(w: World, c: Call)
    requires Distinct(w)
    ensures var (t, r) := Publish(w, c.request, c.fate);
            var key := (c.request.action, c.request.key);
            && (key in w.done ==> t == w && r == Some(w.done[key]))
            && (key !in w.done ==>
                 && (r.Some? <==> c.fate == Answered)
                 && (r.Some? ==> Find(t, c.request.sku).Some? && r.value == Find(t, c.request.sku).value.id
                                 && t.done == w.done[key := r.value])
                 && (r.None? ==> t.done == w.done)
                 && (c.fate == LookUpFails || c.fate == WriteFails ==> t == w))
  {
    hide Apply, Find, Distinct;
    if Key(c.request) !in w.done {
      ApplyEffect(w, c.request.sku, c.request.body, c.request.sku);
      DoneIsNotLookedAt(Apply(w, c.request.sku, c.request.body).0, c.request.sku);
      PublishEffect(w, c, c.request.sku);
    }
  }

  lemma {:induction false} DoneIsKept(w: World, calls: seq<Call>, key: (Action, string))
    requires Distinct(w) && key in w.done
    ensures Distinct(Run(w, calls)) && key in Run(w, calls).done && Run(w, calls).done[key] == w.done[key]
  {
    hide Publish, Find, Distinct;
    if calls != [] {
      var init, c := calls[..|calls| - 1], calls[|calls| - 1];
      DoneIsKept(w, init, key);
      CallIsAnswered(Run(w, init), c);
      PublishEffect(Run(w, init), c, c.request.sku);
    }
  }

  /** Once answered, a request is answered with the same id for ever, and publishes nothing any more. */
  lemma AnsweredOnce(w: World, c: Call, calls: seq<Call>, again: Call)
    requires Distinct(w) && Publish(w, c.request, c.fate).1.Some?
    requires again.request.action == c.request.action && again.request.key == c.request.key
    ensures var t := Run(Publish(w, c.request, c.fate).0, calls);
            Publish(t, again.request, again.fate) == (t, Publish(w, c.request, c.fate).1)
  {
    hide Publish, Find, Distinct;
    CallIsAnswered(w, c);
    PublishEffect(w, c, c.request.sku);
    DoneIsKept(Publish(w, c.request, c.fate).0, calls, (c.request.action, c.request.key));
    CallIsAnswered(Run(Publish(w, c.request, c.fate).0, calls), again);
  }

  /** Products whose SKU no call names are left alone. */
  lemma {:induction false} OtherSkusAreUntouched(w: World, calls: seq<Call>, sku: string)
    requires Distinct(w) && forall i :: 0 <= i < |calls| ==> calls[i].request.sku != sku
    ensures Distinct(Run(w, calls)) && Find(Run(w, calls), sku) == Find(w, sku)
  {
    hide Publish, Find, Distinct;
    if calls != [] {
      var init := calls[..|calls| - 1];
      OtherSkusAreUntouched(w, init, sku);
      PublishEffect(Run(w, init), calls[|calls| - 1], sku);
    }
  }

  lemma ApplyTwice(w: World, sku: string, body: Body)
    requires Distinct(w)
    ensures Apply(Apply(w, sku, body).0, sku, body) == Apply(w, sku, body)
  {
    var (t, id) := Apply(w, sku, body);
    ApplyEffect(w, sku, body, sku);
    var k := IndexOfSku(w.products, sku);
    var l := IndexOfId(t.products, id);
    assert t.products[l].sku == sku;
    assert t.products[l := Product(id, sku, body)] == t.products;
  }

  /** Tries that raised, one after the other. */
  function Tries(r: Request, fates: seq<Fate>): (calls: seq<Call>)
    ensures |calls| == |fates|
  {
    seq(|fates|, i requires 0 <= i < |fates| => Call(r, fates[i]))
  }

  lemma {:induction false} TriesApplyOnce(w: World, r: Request, fates: seq<Fate>)
    requires Distinct(w) && Key(r) !in w.done && Answered !in fates
    ensures Run(w, Tries(r, fates)) == if AnswerLost in fates then Apply(w, r.sku, r.body).0 else w
  {
    hide Apply, Distinct;
    if fates != [] {
      var n := |fates| - 1;
      var init := fates[..n];
      assert Tries(r, fates)[..n] == Tries(r, init);
      TriesApplyOnce(w, r, init);
      assert fates == init + [fates[n]];
      assert AnswerLost in fates <==> AnswerLost in init || fates[n] == AnswerLost;
      ApplyTwice(w, r.sku, r.body);
      assert Apply(w, r.sku, r.body).0.done == w.done by { ApplyEffect(w, r.sku, r.body, r.sku); }
    }
  }

  /**
   Repeating a request until it is answered, however many tries fail or lose their answer,
   ends in the very world and result of one answered call.
   */
  lemma RetriesAreInvisible(w: World, r: Request, fates: seq<Fate>)
    requires Distinct(w) && Key(r) !in w.done && Answered !in fates
    ensures Publish(Run(w, Tries(r, fates)), r, Answered) == Publish(w, r, Answered)
  {
    hide Apply, Distinct;
    TriesApplyOnce(w, r, fates);
    ApplyTwice(w, r.sku, r.body);
    assert Apply(w, r.sku, r.body).0.done == w.done by { ApplyEffect(w, r.sku, r.body, r.sku); }
  }
}
