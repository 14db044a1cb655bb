/**
 * UUIDs and their text form. Python's `str(uuid)` writes the 32 hexadecimal
 * digits in lower case, grouped 8-4-4-4-12 with dashes; `uuid.UUID(text)`
 * drops the dashes and accepts exactly 32 hexadecimal digits of either case.
 */
module Ids {
  import opened Wrappers

  newtype Nibble = x: int | 0 <= x < 16

  /** A UUID is its 128 bits, written as 32 hexadecimal digits, most significant first. */
  type Uuid = s: seq<Nibble> | |s| == 32 witness seq(32, _ => 0 as Nibble)

  const LowerHexDigits: string := "0123456789abcdef"

  function HexChar(n: Nibble): (c: char)
  {
    LowerHexDigits[n as int]
  }

  /** The value of one hexadecimal digit, either case, or None for any other character. */
  function HexValue(c: char): (r: Option<Nibble>)
    ensures r.Some? <==> ('0' <= c <= '9' || 'a' <= c <= 'f' || 'A' <= c <= 'F')
  {
    if '0' <= c <= '9' then Some((c as int - '0' as int) as Nibble)
    else if 'a' <= c <= 'f' then Some((c as int - 'a' as int + 10) as Nibble)
    else if 'A' <= c <= 'F' then Some((c as int - 'A' as int + 10) as Nibble)
    else None
  }

  lemma HexCharValue(n: Nibble)
    ensures HexValue(HexChar(n)) == Some(n)
    ensures HexChar(n) != '-'
  {
    var d := LowerHexDigits;
    assert d[0] == '0' && d[1] == '1' && d[2] == '2' && d[3] == '3' && d[4] == '4' && d[5] == '5';
    assert d[6] == '6' && d[7] == '7' && d[8] == '8' && d[9] == '9' && d[10] == 'a' && d[11] == 'b';
    assert d[12] == 'c' && d[13] == 'd' && d[14] == 'e' && d[15] == 'f';
  }

  function HexString(ns: seq<Nibble>): (s: string)
    ensures |s| == |ns|
  {
    if ns == [] then [] else [HexChar(ns[0])] + HexString(ns[1..])
  }

  /** `str(u)`: the canonical 36-character form. */
  function Format(u: Uuid): (s: string)
    ensures |s| == 36
    ensures s[8] == '-' && s[13] == '-' && s[18] == '-' && s[23] == '-'
  {
    Dashed(Dashed(Dashed(Dashed(HexString(u[..8]), HexString(u[8..12])), HexString(u[12..16])),
                  HexString(u[16..20])), HexString(u[20..]))
  }

  function Dashed(a: string, b: string): string
  {
    a + "-" + b
  }

  function RemoveDashes(s: string): (r: string)
    ensures '-' !in r
    ensures |r| <= |s|
  {
    if s == [] then [] else (if s[0] == '-' then [] else [s[0]]) + RemoveDashes(s[1..])
  }

  /** The digits of a dash-free string, or None when a character is not a hexadecimal digit. */
  function DecodeHex(s: string): (r: Option<seq<Nibble>>)
    ensures r.Some? ==> |r.value| == |s|
  {
    if s == [] then Some([])
    else match (HexValue(s[0]), DecodeHex(s[1..]))
      case (Some(n), Some(rest)) => Some([n] + rest)
      case _ => None
  }

  /** `uuid.UUID(s)`; None where Python raises ValueError. */
  function Parse(s: string): (r: Option<Uuid>)
  {
    var h := RemoveDashes(s);
    if |h| != 32 then None
    else match DecodeHex(h)
      case Some(ns) => Some(ns)
      case None => None
  }

  lemma {:induction false} RemoveDashesAppend(a: string, b: string)
    ensures RemoveDashes(a + b) == RemoveDashes(a) + RemoveDashes(b)
  {
    if a == [] {
      assert a + b == b;
    } else {
      var head: string := if a[0] == '-' then [] else [a[0]];
      assert (a + b)[0] == a[0];
      assert (a + b)[1..] == a[1..] + b;
      RemoveDashesAppend(a[1..], b);
      assert RemoveDashes(a + b) == head + (RemoveDashes(a[1..]) + RemoveDashes(b));
      assert RemoveDashes(a) == head + RemoveDashes(a[1..]);
    }
  }

  lemma {:induction false} HexStringAppend(a: seq<Nibble>, b: seq<Nibble>)
    ensures HexString(a + b) == HexString(a) + HexString(b)
  {
    if a == [] {
      assert a + b == b;
    } else {
      assert (a + b)[1..] == a[1..] + b;
      HexStringAppend(a[1..], b);
    }
  }

  lemma {:induction false} HexStringHasNoDash(ns: seq<Nibble>)
    ensures RemoveDashes(HexString(ns)) == HexString(ns)
  {
    if ns != [] {
      HexCharValue(ns[0]);
      HexStringHasNoDash(ns[1..]);
    }
  }

  lemma {:induction false} DecodeHexString(ns: seq<Nibble>)
    ensures DecodeHex(HexString(ns)) == Some(ns)
  {
    if ns != [] {
      HexCharValue(ns[0]);
      DecodeHexString(ns[1..]);
      var s := HexString(ns);
      assert s[0] == HexChar(ns[0]) && s[1..] == HexString(ns[1..]);
      assert [ns[0]] + ns[1..] == ns;
    }
  }

  lemma RemoveDashesDashed(a: string, b: string)
    ensures RemoveDashes(Dashed(a, b)) == RemoveDashes(a) + RemoveDashes(b)
  {
    var dash := "-";
    assert RemoveDashes(dash) == [];
    RemoveDashesAppend(a, dash);
    RemoveDashesAppend(a + dash, b);
  }

  lemma {:induction false} RemoveDashesGroups(p1: seq<Nibble>, p2: seq<Nibble>, p3: seq<Nibble>, p4: seq<Nibble>, p5: seq<Nibble>)
    ensures RemoveDashes(Dashed(Dashed(Dashed(Dashed(HexString(p1), HexString(p2)), HexString(p3)), HexString(p4)), HexString(p5)))
         == HexString(p1 + p2 + p3 + p4 + p5)
  {
    var h1, h2, h3, h4, h5 := HexString(p1), HexString(p2), HexString(p3), HexString(p4), HexString(p5);
    HexStringHasNoDash(p1);
    HexStringHasNoDash(p2);
    HexStringHasNoDash(p3);
    HexStringHasNoDash(p4);
    HexStringHasNoDash(p5);
    RemoveDashesDashed(h1, h2);
    RemoveDashesDashed(Dashed(h1, h2), h3);
    RemoveDashesDashed(Dashed(Dashed(h1, h2), h3), h4);
    RemoveDashesDashed(Dashed(Dashed(Dashed(h1, h2), h3), h4), h5);
    HexStringAppend(p1, p2);
    HexStringAppend(p1 + p2, p3);
    HexStringAppend(p1 + p2 + p3, p4);
    HexStringAppend(p1 + p2 + p3 + p4, p5);
  }

  /** Removing the dashes of `str(u)` gives back its 32 digits. */
  lemma FormatDigits(u: Uuid)
    ensures RemoveDashes(Format(u)) == HexString(u)
  {
    var p1, p2, p3, p4, p5 := u[..8], u[8..12], u[12..16], u[16..20], u[20..];
    assert u == p1 + p2 + p3 + p4 + p5 by {
      assert u == u[..8] + u[8..];
      assert u[8..] == p2 + u[12..];
      assert u[12..] == p3 + u[16..];
      assert u[16..] == p4 + p5;
    }
    RemoveDashesGroups(p1, p2, p3, p4, p5);
  }

  /** Parsing the text form of a UUID gives that UUID back. */
  lemma ParseFormat(u: Uuid)
    ensures Parse(Format(u)) == Some(u)
  {
    FormatDigits(u);
    DecodeHexString(u);
  }

  /** Distinct UUIDs have distinct text forms, so a text key names one UUID. */
  lemma FormatInjective(u: Uuid, v: Uuid)
    ensures Format(u) == Format(v) <==> u == v
  {
    ParseFormat(u);
    ParseFormat(v);
  }
}
