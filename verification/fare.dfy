/**
 * The fare rule of the booking service: a distance read leniently from
 * free text, and a base-plus-rates formula rounded to cents.
 */
module Fare {
  import opened Wrappers
  import opened Tokens
  import opened Decimal

  const BaseFare: real := 20.0
  const PerMile: real := 2.0
  const PerMinute: real := 0.5

  /** Why reading the distance failed: the Python exception that is caught. */
  datatype ParseError = ValueError | IndexError

  /** The text the distance is read from: a missing or empty field reads as "0.0". */
  function DistanceText(distance: Option<string>): (text: string)
    ensures text != ""
    ensures distance.Some? && distance.value != "" ==> text == distance.value
    ensures distance.None? || distance.value == "" ==> text == "0.0"
  {
    if distance.Some? && distance.value != "" then distance.value else "0.0"
  }

  /** `float(text.split()[0])`, with the exception it may raise. */
  function TryDistance(text: string): (r: Result<real, ParseError>)
    ensures AllSpace(text) ==> r == Err(IndexError)
    ensures !AllSpace(text) ==> |Split(text)| > 0 && r != Err(IndexError)
    ensures !AllSpace(text) ==> (r.Ok? <==> ParseFloat(Split(text)[0]).Some?)
    ensures r.Ok? ==> |Split(text)| > 0 && ParseFloat(Split(text)[0]) == Some(r.value)
  {
    SplitEmptyIffAllSpace(text);
    var words := Split(text);
    if |words| == 0 then Err(IndexError)
    else match ParseFloat(words[0])
      case Some(v) => Ok(v)
      case None => Err(ValueError)
  }

  /** The distance in miles; both exceptions fall back to 0.0, so this never fails. */
  function Distance(distance: Option<string>): (d: real)
    ensures TryDistance(DistanceText(distance)).Err? ==> d == 0.0
    ensures TryDistance(DistanceText(distance)).Ok? ==> d == TryDistance(DistanceText(distance)).value
  {
    match TryDistance(DistanceText(distance))
    case Ok(v) => v
    case Err(_) => 0.0
  }

  /** Minutes: a missing (or zero) duration counts as 0. */
  function Minutes(duration: Option<int>): (m: int)
    ensures m == duration.GetOr(0)
  {
    if duration.Some? && duration.value != 0 then duration.value else 0
  }

  /** Toll: a missing (or zero) toll counts as 0.0. */
  function Toll(toll: Option<real>): (t: real)
    ensures t == toll.GetOr(0.0)
  {
    if toll.Some? && toll.value != 0.0 then toll.value else 0.0
  }

  /** The fare before rounding: base, plus the per-mile and per-minute rates, plus the toll. */
  function RawFare(distance: Option<string>, duration: Option<int>, toll: Option<real>): (f: real)
    ensures Distance(distance) >= 0.0 && Minutes(duration) >= 0 && Toll(toll) >= 0.0 ==> f >= BaseFare
  {
    BaseFare + PerMile * Distance(distance) + PerMinute * Minutes(duration) as real + Toll(toll)
  }

  /** The fare that is stored: the raw fare rounded to whole cents. */
  function StoredFare(distance: Option<string>, duration: Option<int>, toll: Option<real>): (f: real)
    ensures -0.005 <= f - RawFare(distance, duration, toll) <= 0.005
    ensures (f * 100.0).Floor as real == f * 100.0
  {
    var c := RoundCents(RawFare(distance, duration, toll));
    c as real / 100.0
  }

  /** A missing distance and an empty one both read as 0 miles. */
  lemma MissingDistanceIsZero()
    ensures Distance(None) == 0.0
    ensures Distance(Some("")) == 0.0
  {
    assert DistanceText(None) == "0.0";
    assert DistanceText(Some("")) == "0.0";
    DefaultTextIsZero();
  }

  /** The default text "0.0" reads as 0 miles. */
  lemma DefaultTextIsZero()
    ensures TryDistance("0.0") == Ok(0.0)
  {
    SplitOfWord("0.0");
    var s := "0.0";
    assert PointIndex(s) == 1 by {
      assert s[0] == '0' && s[1] == '.';
    }
    assert s[..1] == "0" && s[2..] == "0";
    assert "0"[..0] == [];
    assert ParseFloat(s) == Some(0.0);
  }

  /** Only the first word is read: "6.30 miles" costs like "6.30". */
  lemma DistanceIgnoresUnits(w: string, rest: string)
    requires IsWord(w)
    requires |rest| > 0 && IsSpace(rest[0])
    ensures Distance(Some(w + rest)) == ParseFloat(w).GetOr(0.0)
  {
    SplitFirstWord(w, rest);
  }

  /** Leading whitespace before the number is skipped. */
  lemma DistanceSkipsLeadingSpace(sp: string, s: string)
    requires AllSpace(sp)
    ensures Distance(Some(sp + s)) == Distance(Some(s))
  {
    if s == "" {
      assert sp + s == sp;
      MissingDistanceIsZero();
      if sp != "" {
        BlankDistanceIsZero(sp);
      }
    }
    SplitSkipsLeadingSpace(sp, s);
    SplitEmptyIffAllSpace(sp + s);
    SplitEmptyIffAllSpace(s);
  }

  /** A text of whitespace only has no first word and reads as 0 miles, without error. */
  lemma BlankDistanceIsZero(s: string)
    requires s != "" && AllSpace(s)
    ensures Distance(Some(s)) == 0.0
  {
  }

  /** A first word that is not a number reads as 0 miles, without error. */
  lemma UnparseableDistanceIsZero(s: string)
    requires |Split(s)| > 0 && ParseFloat(Split(s)[0]).None?
    ensures Distance(Some(s)) == 0.0
  {
    SplitEmptyIffAllSpace(s);
  }

  /** A distance written as dollars-and-cents style decimal, with units after it. */
  lemma DistanceOfFormatted(c: nat, units: string)
    requires |units| > 0 && IsSpace(units[0])
    ensures Distance(Some(FormatCents(c) + units)) == c as real / 100.0
  {
    var w := FormatCents(c);
    assert IsWord(w) by {
      forall i | 0 <= i < |w|
        ensures !IsSpace(w[i])
      {
        var whole := NatDigits(c / 100);
        assert w == whole + "." + [DigitChar(c % 100 / 10), DigitChar(c % 10)];
        if i < |whole| {
          assert w[i] == whole[i];
          assert IsDigit(whole[i]);
        }
      }
    }
    DistanceIgnoresUnits(w, units);
    ParseFormatCents(c);
  }

  /** "6.3 miles" reads as 6.3 miles. */
  lemma DistanceExample()
    ensures Distance(Some("6.3 miles")) == 6.3
  {
    assert "6.3 miles" == "6.3" + " miles";
    assert IsWord("6.3");
    DistanceIgnoresUnits("6.3", " miles");
    ParseSixPointThree();
  }

  lemma ParseSixPointThree()
    ensures ParseFloat("6.3") == Some(6.3)
  {
    var s := "6.3";
    assert PointIndex(s) == 1 by {
      assert s[0] == '6' && s[1] == '.';
    }
    assert s[..1] == "6" && s[2..] == "3";
    assert "6"[..0] == [] && "3"[..0] == [];
    assert DigitsValue("6") == 6 && DigitsValue("3") == 3;
  }

  /** Leaving out duration or toll costs the same as giving 0. */
  lemma MissingDurationAndTollAreZero(distance: Option<string>, duration: Option<int>, toll: Option<real>)
    ensures RawFare(distance, None, toll) == RawFare(distance, Some(0), toll)
    ensures RawFare(distance, duration, None) == RawFare(distance, duration, Some(0.0))
    ensures RawFare(distance, None, None) == BaseFare + PerMile * Distance(distance)
  {
  }

  /** The fare formula with duration and toll given. */
  lemma RawFareFormula(distance: Option<string>, minutes: int, toll: real)
    ensures RawFare(distance, Some(minutes), Some(toll))
         == 20.0 + 2.0 * Distance(distance) + 0.5 * minutes as real + toll
  {
  }

  /** With a non-negative distance, duration and toll the stored fare is at least the base. */
  lemma StoredFareAtLeastBase(distance: Option<string>, duration: Option<int>, toll: Option<real>)
    requires duration.GetOr(0) >= 0
    requires toll.GetOr(0.0) >= 0.0
    ensures Distance(distance) >= 0.0 ==> StoredFare(distance, duration, toll) >= BaseFare
  {
    if Distance(distance) >= 0.0 {
      var raw := RawFare(distance, duration, toll);
      assert raw >= 20.0;
      RoundCentsMonotone(20.0, raw);
      RoundCentsExact(2000);
      assert 2000 as real / 100.0 == 20.0;
    }
  }
}
