/** Go's string primitives used by the announcer: `len`, which counts the
    bytes of the UTF-8 encoding, and `strings.Contains`. */
module Text {

  /** Number of bytes UTF-8 uses for one Unicode scalar value. */
  function Utf8Width(c: char): (w: nat)
    ensures 1 <= w <= 4
    ensures w == 1 <==> c as int < 0x80
  {
    if c as int < 0x80 then 1
    else if c as int < 0x800 then 2
    else if c as int < 0x1_0000 then 3
    else 4
  }

  /** Go's `len(s)` on a string: the length of its UTF-8 encoding in bytes. */
  function ByteLen(s: string): (n: nat)
    ensures s == [] <==> n == 0
  {
    if s == [] then 0 else Utf8Width(s[0]) + ByteLen(s[1..])
  }

  predicate IsAscii(s: string)
  {
    forall i | 0 <= i < |s| :: s[i] as int < 0x80
  }

  lemma {:induction false} ByteLenAppend(a: string, b: string)
    ensures ByteLen(a + b) == ByteLen(a) + ByteLen(b)
  {
    if a == [] {
      assert a + b == b;
    } else {
      assert (a + b)[1..] == a[1..] + b;
      ByteLenAppend(a[1..], b);
    }
  }

  /** A string never has fewer bytes than characters, and has exactly as many
      when every character is ASCII. */
  lemma {:induction false} ByteLenBounds(s: string)
    ensures |s| <= ByteLen(s) <= 4 * |s|
    ensures ByteLen(s) == |s| <==> IsAscii(s)
  {
    if s != [] {
      ByteLenBounds(s[1..]);
      assert IsAscii(s) <==> s[0] as int < 0x80 && IsAscii(s[1..]) by {
        if IsAscii(s[1..]) && s[0] as int < 0x80 {
          forall i | 0 <= i < |s| ensures s[i] as int < 0x80 {
            if i > 0 { assert s[i] == s[1..][i - 1]; }
          }
        }
        if IsAscii(s) {
          forall i | 0 <= i < |s[1..]| ensures s[1..][i] as int < 0x80 {
            assert s[1..][i] == s[i + 1];
          }
        }
      }
    }
  }

  lemma AsciiByteLen(s: string)
    requires IsAscii(s)
    ensures ByteLen(s) == |s|
  {
    ByteLenBounds(s);
  }

  /** Go's `strings.Contains(s, t)`: `t` occurs in `s` at some offset. */
  predicate Contains(s: string, t: string)
    decreases |s|
  {
    t <= s || (s != [] && Contains(s[1..], t))
  }

  /** `t` occurs in `s` starting at offset `i`. */
  predicate OccursAt(s: string, t: string, i: int)
  {
    0 <= i <= |s| - |t| && s[i..i + |t|] == t
  }

  /** Every occurrence makes `Contains` true ... */
  lemma {:induction false} OccursContains(s: string, t: string, i: int)
    requires OccursAt(s, t, i)
    ensures Contains(s, t)
    decreases i
  {
    if i == 0 {
      assert s[..|t|] == t;
    } else {
      assert s[1..][i - 1..i - 1 + |t|] == s[i..i + |t|];
      OccursContains(s[1..], t, i - 1);
    }
  }

  /** ... and `Contains` always has an occurrence to show for it. */
  lemma {:induction false} ContainsOccurs(s: string, t: string)
    requires Contains(s, t)
    ensures exists i :: OccursAt(s, t, i)
    decreases |s|
  {
    if t <= s {
      assert s[..|t|] == t;
      assert OccursAt(s, t, 0);
    } else {
      ContainsOccurs(s[1..], t);
      var j :| OccursAt(s[1..], t, j);
      assert s[1..][j..j + |t|] == s[j + 1..j + 1 + |t|];
      assert OccursAt(s, t, j + 1);
    }
  }

  /** `t` is a suffix of `p + t`. */
  lemma {:induction false} ContainsSuffix(p: string, t: string)
    ensures Contains(p + t, t)
    decreases |p|
  {
    if p != [] {
      assert (p + t)[1..] == p[1..] + t;
      ContainsSuffix(p[1..], t);
    }
  }

  /** Appending to a string keeps everything it contains. */
  lemma {:induction false} ContainsExtend(s: string, t: string, q: string)
    requires Contains(s, t)
    ensures Contains(s + q, t)
    decreases |s|
  {
    if !(t <= s) {
      assert (s + q)[1..] == s[1..] + q;
      ContainsExtend(s[1..], t, q);
    }
  }
}
