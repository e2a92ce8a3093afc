/** The status board: the keys of the shared `messages` dictionary and the texts
    written into it, including the decimal rendering of an airplane id that the
    f-strings perform. */
module Messages {

  /** A key of `messages`: an airplane id, or the reserved "collision" key. */
  datatype Slot = PlaneSlot(id: int) | CollisionSlot

  const CollisionBanner: string := "COLLISION!"
  /** An empty text means "no message" for that airplane. */
  const Cleared: string := ""

  const AnnouncePrefix: string := "Airplane "
  const WantsToLandTail: string := " wants to land"
  const IsLandingTail: string := " is landing..."
  const HasLandedTail: string := " has landed!"

  predicate IsDigit(c: char)
  {
    '0' <= c <= '9'
  }

  function DigitChar(d: nat): (c: char)
    requires d < 10
    ensures IsDigit(c)
  {
    (('0' as int) + d) as char
  }

  /** Decimal digits of n, most significant first, without leading zeros. */
  function NatToString(n: nat): (s: string)
    ensures |s| >= 1
    ensures forall i :: 0 <= i < |s| ==> IsDigit(s[i])
    ensures s[0] == '0' ==> n == 0
    decreases n
  {
    if n < 10 then [DigitChar(n)] else NatToString(n / 10) + [DigitChar(n % 10)]
  }

  /** Python's `str` of an int: a minus sign before the digits of a negative number. */
  function IntToString(n: int): (s: string)
    ensures |s| >= 1 && (s[0] == '-' <==> n < 0)
    ensures forall i :: (if n < 0 then 1 else 0) <= i < |s| ==> IsDigit(s[i])
  {
    if n < 0 then "-" + NatToString(-n) else NatToString(n)
  }

  /** Value of a string of decimal digits (the partner of NatToString). */
  function ParseNat(s: string): int
    decreases |s|
  {
    if s == [] then 0 else ParseNat(s[..|s| - 1]) * 10 + ((s[|s| - 1] as int) - ('0' as int))
  }

  /** Value of an optionally signed decimal string (the partner of IntToString). */
  function ParseInt(s: string): int
  {
    if |s| > 0 && s[0] == '-' then -ParseNat(s[1..]) else ParseNat(s)
  }

  lemma {:induction false} NatToStringRoundTrip(n: nat)
    ensures ParseNat(NatToString(n)) == n
    decreases n
  {
    if n >= 10 {
      var s := NatToString(n);
      assert s[..|s| - 1] == NatToString(n / 10);
      NatToStringRoundTrip(n / 10);
    }
  }

  /** Rendering an id and reading it back gives the id: the text names one id. */
  lemma IntToStringRoundTrip(n: int)
    ensures ParseInt(IntToString(n)) == n
  {
    if n < 0 {
      NatToStringRoundTrip(-n);
      assert ("-" + NatToString(-n))[1..] == NatToString(-n);
    } else {
      NatToStringRoundTrip(n);
      assert !IsDigit('-');
    }
  }

  /** `f"Airplane {id}{tail}"`. */
  function Announce(id: int, tail: string): (r: string)
    ensures |r| > |AnnouncePrefix| + |tail|
    ensures r[..|AnnouncePrefix|] == AnnouncePrefix && r[|r| - |tail|..] == tail
  {
    AnnouncePrefix + IntToString(id) + tail
  }

  /** The text a plane is created with. */
  function WantsToLand(id: int): string { Announce(id, WantsToLandTail) }
  /** The text set when the descent starts. */
  function IsLanding(id: int): string { Announce(id, IsLandingTail) }
  /** The text set at touchdown. */
  function HasLanded(id: int): string { Announce(id, HasLandedTail) }

  /** What lies between "Airplane " and the tail reads back as the id. */
  lemma AnnounceReadsBack(id: int, tail: string)
    ensures var r := Announce(id, tail);
      ParseInt(r[|AnnouncePrefix|..|r| - |tail|]) == id
  {
    var r := Announce(id, tail);
    assert r[|AnnouncePrefix|..|r| - |tail|] == IntToString(id);
    IntToStringRoundTrip(id);
  }

  /** Two airplanes with different ids never show the same status text. */
  lemma AnnounceNamesOnePlane(a: int, b: int, tail: string)
    requires Announce(a, tail) == Announce(b, tail)
    ensures a == b
  {
    AnnounceReadsBack(a, tail);
    AnnounceReadsBack(b, tail);
  }

  /** The four texts an airplane's slot goes through are pairwise different, so
      the board tells the phases apart. */
  lemma PhaseTextsDiffer(id: int)
    ensures WantsToLand(id) != IsLanding(id)
    ensures IsLanding(id) != HasLanded(id)
    ensures WantsToLand(id) != HasLanded(id)
    ensures WantsToLand(id) != Cleared && IsLanding(id) != Cleared && HasLanded(id) != Cleared
  {
  }
}
