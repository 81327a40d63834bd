/** The paste record, the request body that creates one, and the seeding of
    the id counter from the initial list of pastes. */
module Pastes {
  import opened Wrappers

  /** One stored paste. Every field but `id` may be `undefined` in the
      source, so each is optional here. */
  datatype Paste = Paste(
    id: int,
    name: Option<string>,
    syntax: Option<string>,
    exposure: Option<string>,
    expiration: Option<string>,
    text: Option<string>,
    userId: Option<int>)

  /** The `data` object of a create request body. */
  datatype PasteData = PasteData(
    name: Option<string>,
    syntax: Option<string>,
    exposure: Option<string>,
    expiration: Option<string>,
    text: Option<string>,
    userId: Option<int>)

  const NoFields := PasteData(None, None, None, None, None, None)

  /** `const { data: { ... } = {} } = req.body`: a body without `data`
      destructures as an empty object, so every field is absent. */
  function Fields(data: Option<PasteData>): PasteData
  {
    match data
    case None => NoFields
    case Some(d) => d
  }

  /** `p` carries the request's fields: each is the one the request's
      `data` gives, and all are absent when the request has no `data`. */
  predicate CarriesRequest(p: Paste, data: Option<PasteData>)
  {
    match data
    case None =>
      p.name.None? && p.syntax.None? && p.exposure.None? &&
      p.expiration.None? && p.text.None? && p.userId.None?
    case Some(d) =>
      p.name == d.name && p.syntax == d.syntax && p.exposure == d.exposure &&
      p.expiration == d.expiration && p.text == d.text && p.userId == d.userId
  }

  function Max(a: int, b: int): int
  {
    if a < b then b else a
  }

  /** True when no two pastes of `s` share an id. */
  predicate IdsDistinct(s: seq<Paste>)
  {
    forall i, j :: 0 <= i < j < |s| ==> s[i].id != s[j].id
  }

  /** True when every id in `s` is at most `bound`. */
  predicate IdsAtMost(s: seq<Paste>, bound: int)
  {
    forall i :: 0 <= i < |s| ==> s[i].id <= bound
  }

  /** The counter's seeding: a left fold of `Math.max` over the ids of `s`,
      starting from `acc`. The result is the largest of `acc`
      and the ids of `s`. */
  function MaxIdFrom(acc: int, s: seq<Paste>): (r: int)
    ensures acc <= r && IdsAtMost(s, r)
    ensures r == acc || exists i :: 0 <= i < |s| && s[i].id == r
    decreases |s|
  {
    if s == [] then acc
    else
      var r := MaxIdFrom(Max(acc, s[0].id), s[1..]);
      assert forall i :: 1 <= i < |s| ==> s[i] == s[1..][i - 1];
      assert r != Max(acc, s[0].id) ==> exists j :: 0 <= j < |s| - 1 && s[1..][j].id == r;
      r
  }

  /** The initial value of `lastPasteId`: the fold above started at 0. */
  function SeedLastId(seed: seq<Paste>): (r: int)
    ensures 0 <= r && IdsAtMost(seed, r)
    ensures r == 0 || exists i :: 0 <= i < |seed| && seed[i].id == r
  {
    MaxIdFrom(0, seed)
  }
}
