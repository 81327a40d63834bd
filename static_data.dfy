/** The read-only handlers of the Static-Data checkpoint: `GET /pastes/:pasteId`
    (a `find` over the array by the numeric route key) and `GET /pastes`. */
module StaticData {
  import opened Wrappers
  import opened Pastes

  // ---------------------------------------------------------------------
  // Number(pasteId): the route key as a number
  // ---------------------------------------------------------------------

  predicate IsDigit(c: char)
  {
    '0' <= c <= '9'
  }

  predicate AllDigits(s: string)
  {
    forall i :: 0 <= i < |s| ==> IsDigit(s[i])
  }

  function DigitValue(c: char): nat
    requires IsDigit(c)
  {
    c as int - '0' as int
  }

  function DigitChar(d: nat): char
    requires d < 10
  {
    ('0' as int + d) as char
  }

  /** The decimal value of a string of digits, most significant first. */
  function DigitsValue(s: string): nat
    requires AllDigits(s)
  {
    if s == [] then 0 else 10 * DigitsValue(s[..|s| - 1]) + DigitValue(s[|s| - 1])
  }

  /** `Number(s)` for the decimal forms a route segment takes: the empty
      string is 0, an optional sign is followed by one or more digits, and
      anything else is NaN (`None`), which equals no id. */
  function ParseNumber(s: string): (r: Option<int>)
    ensures r.Some? ==> forall i :: 0 < i < |s| ==> IsDigit(s[i])
    ensures r.Some? && |s| > 0 && !IsDigit(s[0]) ==> |s| > 1 && (s[0] == '-' || s[0] == '+')
    ensures r.Some? && r.value < 0 ==> |s| > 1 && s[0] == '-'
  {
    if s == [] then Some(0)
    else if (s[0] == '-' || s[0] == '+') && |s| > 1 && AllDigits(s[1..]) then
      var magnitude: int := DigitsValue(s[1..]);
      Some(if s[0] == '-' then -magnitude else magnitude)
    else if AllDigits(s) then Some(DigitsValue(s))
    else None
  }

  /** The decimal numeral of `n`, without leading zeros. */
  function ShowNat(n: nat): (r: string)
    decreases n
  {
    if n < 10 then [DigitChar(n)] else ShowNat(n / 10) + [DigitChar(n % 10)]
  }

  /** The route segment that names id `k`. */
  function ShowInt(k: int): string
  {
    if k < 0 then "-" + ShowNat(-k) else ShowNat(k)
  }

  lemma {:induction false} ShowNatDigits(n: nat)
    ensures |ShowNat(n)| > 0 && AllDigits(ShowNat(n)) && DigitsValue(ShowNat(n)) == n
    decreases n
  {
    if n >= 10 {
      ShowNatDigits(n / 10);
      var s := ShowNat(n);
      assert s[..|s| - 1] == ShowNat(n / 10);
    }
  }

  /** Reading back the numeral of an id yields that id. */
  lemma ParseShowInt(k: int)
    ensures ParseNumber(ShowInt(k)) == Some(k)
  {
    if k < 0 {
      ShowNatDigits(-k);
      assert ShowInt(k)[1..] == ShowNat(-k);
    } else {
      ShowNatDigits(k);
    }
  }

  // ---------------------------------------------------------------------
  // Finding the first paste whose id equals the numeric key
  // ---------------------------------------------------------------------

  /** Some paste of `s` has id `k`. */
  predicate HasId(s: seq<Paste>, k: int)
  {
    exists i :: 0 <= i < |s| && s[i].id == k
  }

  /** Position `i` holds the first paste of `s` with id `k`. */
  predicate FirstWithId(s: seq<Paste>, k: int, i: int)
  {
    0 <= i < |s| && s[i].id == k && forall j :: 0 <= j < i ==> s[j].id != k
  }

  /** `Array.prototype.find`: the first paste, in stored order, whose id is
      `k`, or `undefined` when there is none. */
  function FindById(s: seq<Paste>, k: int): (r: Option<Paste>)
    ensures r.Some? <==> HasId(s, k)
    ensures r.Some? ==> exists i :: FirstWithId(s, k, i) && s[i] == r.value
    decreases |s|
  {
    if s == [] then None
    else if s[0].id == k then
      assert FirstWithId(s, k, 0);
      Some(s[0])
    else
      var r := FindById(s[1..], k);
      assert forall i :: 1 <= i < |s| ==> s[i] == s[1..][i - 1];
      assert r.Some? ==> exists i :: FirstWithId(s[1..], k, i) && s[1..][i] == r.value;
      assert forall i :: FirstWithId(s[1..], k, i) ==> FirstWithId(s, k, i + 1);
      r
  }

  /** Appending one paste does not change what an earlier id finds; the
      appended paste is found by its id only when no earlier paste has it. */
  lemma {:induction false} FindAfterAppend(s: seq<Paste>, p: Paste, k: int)
    ensures FindById(s + [p], k) ==
              if HasId(s, k) then FindById(s, k)
              else if p.id == k then Some(p)
              else None
    decreases |s|
  {
    if s != [] {
      assert (s + [p])[1..] == s[1..] + [p];
      FindAfterAppend(s[1..], p, k);
      assert s[0].id != k ==> (HasId(s, k) <==> HasId(s[1..], k)) by {
        assert forall i :: 1 <= i < |s| ==> s[i] == s[1..][i - 1];
      }
    }
  }

  // ---------------------------------------------------------------------
  // The route handlers
  // ---------------------------------------------------------------------

  function NotFoundMessage(pasteId: string): string
  {
    "Paste id not found: " + pasteId
  }

  /** `GET /pastes/:pasteId`: the first paste whose id is the numeric value
      of the route key, or the not-found message naming the key as given. */
  function Lookup(pastes: seq<Paste>, pasteId: string): (r: Result<Paste, string>)
    ensures r.Success? <==> ParseNumber(pasteId).Some? && HasId(pastes, ParseNumber(pasteId).value)
    ensures r.Success? ==>
              r.value.id == ParseNumber(pasteId).value &&
              exists i :: FirstWithId(pastes, r.value.id, i) && pastes[i] == r.value
    ensures r.Failure? ==> r.error == "Paste id not found: " + pasteId
  {
    match ParseNumber(pasteId)
    case None => Failure(NotFoundMessage(pasteId))
    case Some(k) =>
      match FindById(pastes, k)
      case Some(p) => Success(p)
      case None => Failure(NotFoundMessage(pasteId))
  }

  /** Looking up the numeral of an id succeeds exactly when some paste has
      that id, and then yields the first such paste. */
  lemma LookupShownId(pastes: seq<Paste>, k: int)
    ensures Lookup(pastes, ShowInt(k)).Success? <==> HasId(pastes, k)
    ensures Lookup(pastes, ShowInt(k)).Success? ==>
              exists i :: FirstWithId(pastes, k, i) && Lookup(pastes, ShowInt(k)).value == pastes[i]
  {
    ParseShowInt(k);
  }
}
