/** The researcher's list of stored surveys (app/researcher/dashboard/page.tsx):
    deleting a survey by id, and the "Total cost" line of each card, which multiplies
    the integer prefixes of the quota and reward texts. */
module ResearcherDashboard {
  import opened Wrappers
  import opened Seqs
  import opened CreateSurvey

  /** `surveys.filter(survey => survey.id !== id)`. */
  function WithoutId(surveys: seq<StoredSurvey>, id: string): (r: seq<StoredSurvey>)
    ensures forall s :: s in r ==> s.id != id
    ensures forall s :: s in surveys && s.id != id ==> s in r && multiset(r)[s] == multiset(surveys)[s]
    ensures IsSubsequence(r, surveys)
  {
    var other := (s: StoredSurvey) => s.id != id;
    FilterContents(surveys, other);
    FilterIsSubsequence(surveys, other);
    Filter(surveys, other)
  }

  /** Deleting an id no survey has changes nothing. */
  lemma DeleteAbsentId(surveys: seq<StoredSurvey>, id: string)
    requires forall s :: s in surveys ==> s.id != id
    ensures WithoutId(surveys, id) == surveys
  {
    FilterKeepsAll(surveys, (s: StoredSurvey) => s.id != id);
  }

  /** Deleting the same id twice is deleting it once. */
  lemma DeleteTwice(surveys: seq<StoredSurvey>, id: string)
    ensures WithoutId(WithoutId(surveys, id), id) == WithoutId(surveys, id)
  {
    FilterIdempotent(surveys, (s: StoredSurvey) => s.id != id);
  }

  /** The page's `surveys` state and the `'surveys'` entry of local storage. */
  class Dashboard {
    var surveys: seq<StoredSurvey>
    var stored: seq<StoredSurvey>

    /** What is listed is what is stored. */
    ghost predicate Valid()
      reads this
    {
      surveys == stored
    }

    /** The mount effect: the list is read from storage. */
    constructor (storage: seq<StoredSurvey>)
      ensures Valid() && stored == storage
    {
      surveys, stored := storage, storage;
    }

    /** `deleteSurvey(id)`: the filtered list becomes both the state and the stored list. */
    method DeleteSurvey(id: string)
      requires Valid()
      modifies this
      ensures Valid()
      ensures surveys == WithoutId(old(surveys), id)
    {
      var updated := WithoutId(surveys, id);
      surveys := updated;
      stored := updated;
    }
  }

  predicate IsDigit(c: char)
  {
    '0' <= c <= '9'
  }

  /** How many decimal digits `s` starts with. */
  function DigitPrefixLength(s: string): (n: nat)
    ensures n <= |s|
    ensures forall i :: 0 <= i < n ==> IsDigit(s[i])
    ensures n < |s| ==> !IsDigit(s[n])
  {
    if s != [] && IsDigit(s[0]) then 1 + DigitPrefixLength(s[1..]) else 0
  }

  /** The number a string of decimal digits denotes. */
  function DigitsValue(d: string): nat
    requires forall i :: 0 <= i < |d| ==> IsDigit(d[i])
  {
    if d == [] then 0
    else
      assert IsDigit(d[|d| - 1]);
      DigitsValue(d[..|d| - 1]) * 10 + (d[|d| - 1] as int - '0' as int)
  }

  /** `parseInt(s)` on the text of a number input: an optional sign, then as many
      decimal digits as follow it; no digit at all gives `NaN` (None). */
  function ParseInt(s: string): (r: Option<int>)
    ensures var signed := |s| > 0 && (s[0] == '-' || s[0] == '+');
            var digits := if signed then s[1..] else s;
            && (r.None? <==> DigitPrefixLength(digits) == 0)
            && (r.Some? && signed && s[0] == '-' ==> r.value <= 0)
            && (r.Some? && !(signed && s[0] == '-') ==> r.value >= 0)
  {
    var negative := |s| > 0 && s[0] == '-';
    var digits := if |s| > 0 && (s[0] == '-' || s[0] == '+') then s[1..] else s;
    var n := DigitPrefixLength(digits);
    if n == 0 then None
    else
      var v: int := DigitsValue(digits[..n]);
      Some(if negative then -v else v)
  }

  /** The decimal digits of `n`, without leading zeros. */
  function ShowNat(n: nat): (d: string)
    ensures |d| > 0 && forall i :: 0 <= i < |d| ==> IsDigit(d[i])
  {
    var last := ((n % 10) + '0' as int) as char;
    if n < 10 then [last] else ShowNat(n / 10) + [last]
  }

  lemma {:induction false} DigitsValueShowNat(n: nat)
    ensures DigitsValue(ShowNat(n)) == n
  {
    if n >= 10 {
      DigitsValueShowNat(n / 10);
      var d := ShowNat(n);
      assert d[..|d| - 1] == ShowNat(n / 10);
    }
  }

  lemma {:induction false} DigitPrefixOfDigits(d: string, rest: string)
    requires forall i :: 0 <= i < |d| ==> IsDigit(d[i])
    requires rest == [] || !IsDigit(rest[0])
    ensures DigitPrefixLength(d + rest) == |d|
  {
    if d != [] {
      assert (d + rest)[1..] == d[1..] + rest;
      DigitPrefixOfDigits(d[1..], rest);
    } else {
      assert d + rest == rest;
    }
  }

  /** `parseInt` reads back a written number, whatever non-digit text follows it (a
      decimal point and cents, say): the cents are dropped. */
  lemma ParseShowNat(n: nat, rest: string)
    requires rest == [] || !IsDigit(rest[0])
    ensures ParseInt(ShowNat(n) + rest) == Some(n)
    ensures ParseInt(['-'] + ShowNat(n) + rest) == Some(-(n as int))
  {
    var d := ShowNat(n);
    DigitPrefixOfDigits(d, rest);
    DigitsValueShowNat(n);
    assert (d + rest)[..|d|] == d;
    assert (['-'] + d + rest)[1..] == d + rest;
  }

  /** What the card shows after "Total cost": nothing unless both the quota and the
      reward are enabled, then the product of the two parsed texts, or `NaN`. */
  datatype CostDisplay = Hidden | NotANumber | Dollars(amount: int)

  function TotalCost(p: SurveyParameters): (r: CostDisplay)
    ensures r.Hidden? <==> !(p.participantQuota.enabled && p.participantQuota.reward.enabled)
    ensures r.Dollars? <==> !r.Hidden? && ParseInt(p.participantQuota.quota).Some?
                                       && ParseInt(p.participantQuota.reward.amount).Some?
    ensures r.Dollars? ==> r.amount == ParseInt(p.participantQuota.quota).value
                                       * ParseInt(p.participantQuota.reward.amount).value
  {
    if !(p.participantQuota.enabled && p.participantQuota.reward.enabled) then Hidden
    else
      match (ParseInt(p.participantQuota.quota), ParseInt(p.participantQuota.reward.amount))
      case (Some(q), Some(a)) => Dollars(q * a)
      case _ => NotANumber
  }

  /** The reward text of `d` dollars and some cents parses as `d`. */
  lemma ParseDollarsAndCents(d: nat, cents: string)
    ensures ParseInt(ShowNat(d) + "." + cents) == Some(d)
  {
    var rest := "." + cents;
    assert rest[0] == '.';
    assert ShowNat(d) + "." + cents == ShowNat(d) + rest;
    ParseShowNat(d, rest);
  }

  /** A quota of `q` participants at `d` dollars and some cents each shows `q * d`. */
  lemma TotalCostDropsCents(p: SurveyParameters, q: nat, d: nat, cents: string)
    requires p.participantQuota.enabled && p.participantQuota.reward.enabled
    requires p.participantQuota.quota == ShowNat(q)
    requires p.participantQuota.reward.amount == ShowNat(d) + "." + cents
    ensures TotalCost(p) == Dollars(q * d)
  {
    ParseShowNat(q, []);
    assert ShowNat(q) + [] == ShowNat(q);
    ParseDollarsAndCents(d, cents);
  }
}
