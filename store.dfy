/** The in-memory paste store shared by the route handlers: the module-level
    `pastes` array and the `lastPasteId` counter seeded from it. */
module Store {
  import opened Wrappers
  import opened Pastes
  import opened StaticData
  import opened Validation

  class PasteStore {
    /** The `pastes` array, in insertion order. */
    var pastes: seq<Paste>
    /** `lastPasteId`: the largest id handed out so far, or the seed
        maximum before any create. */
    var lastPasteId: int

    /** How many pastes came from the seed list, and the counter's initial value. */
    ghost var seedCount: nat
    ghost var seedMax: int

    /** The counter bounds every stored id, and the pastes after the seed
        carry the ids seedMax + 1, seedMax + 2, ... in order. */
    ghost predicate Valid()
      reads this
    {
      seedCount <= |pastes| &&
      IdsAtMost(pastes, lastPasteId) &&
      IdsAtMost(pastes[..seedCount], seedMax) &&
      lastPasteId == seedMax + (|pastes| - seedCount) &&
      forall i :: seedCount <= i < |pastes| ==> pastes[i].id == seedMax + 1 + (i - seedCount)
    }

    /** Loads the seed list and sets `lastPasteId` by the max-reduce over its ids. */
    constructor (seed: seq<Paste>)
      ensures Valid()
      ensures pastes == seed && lastPasteId == SeedLastId(seed)
      ensures 0 <= lastPasteId && IdsAtMost(seed, lastPasteId)
    {
      pastes := seed;
      lastPasteId := SeedLastId(seed);
      seedCount := |seed|;
      seedMax := SeedLastId(seed);
    }

    /** `GET /pastes`: the whole array, in stored order. */
    method List() returns (r: seq<Paste>)
      ensures r == pastes
    {
      r := pastes;
    }

    /** `GET /pastes/:pasteId`. */
    method Get(pasteId: string) returns (r: Result<Paste, string>)
      ensures r == Lookup(pastes, pasteId)
    {
      r := Lookup(pastes, pasteId);
    }

    /** `POST /pastes` without validation: pre-increment the counter, build
        the record from the request's fields and append it. */
    method Create(data: Option<PasteData>) returns (p: Paste)
      requires Valid()
      modifies this
      ensures Valid()
      ensures seedCount == old(seedCount) && seedMax == old(seedMax)
      ensures lastPasteId == old(lastPasteId) + 1
      ensures p.id == lastPasteId
      ensures CarriesRequest(p, data)
      ensures pastes == old(pastes) + [p]
      ensures forall i :: 0 <= i < |old(pastes)| ==> old(pastes)[i].id < p.id
      ensures IdsDistinct(old(pastes)) ==> IdsDistinct(pastes)
      ensures Lookup(pastes, ShowInt(p.id)) == Success(p)
    {
      lastPasteId := lastPasteId + 1;
      var f := Fields(data);
      p := Paste(lastPasteId, f.name, f.syntax, f.exposure, f.expiration, f.text, f.userId);
      ghost var before := pastes;
      pastes := pastes + [p];
      assert pastes[..seedCount] == before[..seedCount];
      assert !HasId(before, p.id);
      FindAfterAppend(before, p, p.id);
      ParseShowInt(p.id);
    }

    /** `POST /pastes` behind `bodyHasTextProperty`: a request without a
        truthy `text` is rejected and the store is left as it was. */
    method CreateValidated(data: Option<PasteData>) returns (r: Result<Paste, string>)
      requires Valid()
      modifies this
      ensures Valid()
      ensures seedCount == old(seedCount) && seedMax == old(seedMax)
      ensures r.Failure? <==> !(data.Some? && IsTruthy(data.value.text))
      ensures r.Failure? ==>
                r.error == TextRequired &&
                pastes == old(pastes) && lastPasteId == old(lastPasteId)
      ensures r.Success? ==>
                lastPasteId == old(lastPasteId) + 1 &&
                r.value.id == lastPasteId && CarriesRequest(r.value, data) &&
                IsTruthy(r.value.text) &&
                pastes == old(pastes) + [r.value] &&
                (forall i :: 0 <= i < |old(pastes)| ==> old(pastes)[i].id < r.value.id) &&
                (IdsDistinct(old(pastes)) ==> IdsDistinct(pastes)) &&
                Lookup(pastes, ShowInt(r.value.id)) == Success(r.value)
    {
      match BodyHasTextProperty(data)
      case Fail(message) =>
        r := Failure(message);
      case Pass =>
        var p := Create(data);
        r := Success(p);
    }
  }

  /** Two creates in a row hand out consecutive ids, each above every id
      stored before it, and the list grows by one record per create. */
  method CreateTwice(store: PasteStore, first: Option<PasteData>, second: Option<PasteData>)
    returns (p: Paste, q: Paste)
    requires store.Valid()
    modifies store
    ensures store.Valid()
    ensures store.seedCount == old(store.seedCount) && store.seedMax == old(store.seedMax)
    ensures store.lastPasteId == old(store.lastPasteId) + 2
    ensures p.id == old(store.lastPasteId) + 1 && q.id == p.id + 1
    ensures CarriesRequest(p, first) && CarriesRequest(q, second)
    ensures forall i :: 0 <= i < |old(store.pastes)| ==> old(store.pastes)[i].id < p.id
    ensures store.pastes == old(store.pastes) + [p, q]
  {
    p := store.Create(first);
    q := store.Create(second);
  }
}
