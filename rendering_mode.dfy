/**
 * Rendering modes and their display names (Configuration/RenderingMode.cs).
 *
 * A C# enum value is an integer; the four named modes are the ordinals 0 to 3
 * in declaration order, and any other integer is a valid (unnamed) value whose
 * `ToString()` is its decimal representation.
 */
module RenderingModes {

  datatype RenderingMode = RenderingMode(ordinal: int)

  const Dvr := RenderingMode(0)
  const FirstHit := RenderingMode(1)
  const Mip := RenderingMode(2)
  const Average := RenderingMode(3)

  predicate IsNamed(mode: RenderingMode) { 0 <= mode.ordinal <= 3 }

  function DigitChar(d: nat): (c: char)
    requires d < 10
    ensures '0' <= c <= '9'
  {
    "0123456789"[d]
  }

  /** The decimal digits of a natural number, most significant first. */
  function NatToString(n: nat): (s: string)
    ensures 1 <= |s|
    ensures forall i :: 0 <= i < |s| ==> '0' <= s[i] <= '9'
    ensures |s| == 1 <==> n < 10
  {
    if n < 10 then [DigitChar(n)] else NatToString(n / 10) + [DigitChar(n % 10)]
  }

  /** `Int32.ToString()`: a minus sign before the digits of a negative value. */
  function IntToString(n: int): (s: string)
    ensures 1 <= |s|
    ensures forall i :: 0 <= i < |s| ==> s[i] == '-' || '0' <= s[i] <= '9'
    ensures n < 0 <==> s[0] == '-'
  {
    if n < 0 then "-" + NatToString(-n) else NatToString(n)
  }

  /** Different digits are different characters. */
  lemma DigitCharInjective(d: nat, e: nat)
    requires d < 10 && e < 10 && DigitChar(d) == DigitChar(e)
    ensures d == e
  {
  }

  /** A number of two or more digits is its quotient by ten followed by its last digit. */
  lemma NatToStringSplit(n: nat)
    requires 10 <= n
    ensures var s := NatToString(n);
            s[..|s| - 1] == NatToString(n / 10) && s[|s| - 1] == DigitChar(n % 10)
  {
  }

  /** Different natural numbers have different decimal representations. */
  lemma {:induction false} NatToStringInjective(n: nat, m: nat)
    requires NatToString(n) == NatToString(m)
    ensures n == m
    decreases n
  {
    if n < 10 {
      assert m < 10;
      DigitCharInjective(n, m);
    } else {
      assert 10 <= m;
      NatToStringSplit(n);
      NatToStringSplit(m);
      DigitCharInjective(n % 10, m % 10);
      NatToStringInjective(n / 10, m / 10);
    }
  }

  lemma IntToStringInjective(n: int, m: int)
    requires IntToString(n) == IntToString(m)
    ensures n == m
  {
    if n < 0 {
      assert m < 0;
      assert IntToString(n)[1..] == NatToString(-n);
      assert IntToString(m)[1..] == NatToString(-m);
      NatToStringInjective(-n, -m);
    } else {
      NatToStringInjective(n, m);
    }
  }

  /** `ToFriendlyString`: a fixed text for each named mode, the enum's own `ToString()` otherwise. */
  function ToFriendlyString(mode: RenderingMode): (s: string)
    ensures !IsNamed(mode) ==> s == IntToString(mode.ordinal)
    ensures 1 <= |s|
    ensures IsNamed(mode) ==> 'A' <= s[0] <= 'Z'
  {
    match mode.ordinal
    case 0 => "Direct Volume Rendering"
    case 1 => "First-hit"
    case 2 => "Maximum Intensity Projection"
    case 3 => "Average Projection"
    case _ => IntToString(mode.ordinal)
  }

  /** The modes are declared in the order Dvr, FirstHit, Mip, Average. */
  lemma NamedModes()
    ensures ToFriendlyString(Dvr) == "Direct Volume Rendering"
    ensures ToFriendlyString(FirstHit) == "First-hit"
    ensures ToFriendlyString(Mip) == "Maximum Intensity Projection"
    ensures ToFriendlyString(Average) == "Average Projection"
    ensures IsNamed(Dvr) && IsNamed(FirstHit) && IsNamed(Mip) && IsNamed(Average)
  {
  }

  /**
   * No two modes share a display name: the four texts are pairwise distinct
   * and begin with a letter, while the fallback begins with a digit or '-'
   * and is itself injective.
   */
  lemma FriendlyStringInjective(a: RenderingMode, b: RenderingMode)
    requires ToFriendlyString(a) == ToFriendlyString(b)
    ensures a == b
  {
    if IsNamed(a) != IsNamed(b) {
      assert false;
    } else if !IsNamed(a) {
      IntToStringInjective(a.ordinal, b.ordinal);
    } else {
      var s := ToFriendlyString(a);
      assert s[1] == ToFriendlyString(b)[1] && |s| == |ToFriendlyString(b)|;
    }
  }
}
