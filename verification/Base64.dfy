/** Base64 as section 4 of RFC 4648 defines it. */
module Base64 {
  import opened Prelude

  function Char(i: int): char
    requires 0 <= i < 64
  {
    if i < 26 then 'A' + i as char
    else if i < 52 then 'a' + (i - 26) as char
    else if i < 62 then '0' + (i - 52) as char
    else if i == 62 then '+' else '/'
  }

  function Index(c: char): (r: Option<int>)
    ensures r.Some? ==> 0 <= r.value < 64 && Char(r.value) == c
  {
    if 'A' <= c <= 'Z' then Some((c - 'A') as int)
    else if 'a' <= c <= 'z' then Some((c - 'a') as int + 26)
    else if '0' <= c <= '9' then Some((c - '0') as int + 52)
    else if c == '+' then Some(62) else if c == '/' then Some(63) else None
  }

  /** The 24 bits of a group as four indices. */
  function Indices(a: Byte, b: Byte, c: Byte): (int, int, int, int) {
    (a / 4, a % 4 * 16 + b / 16, b % 16 * 4 + c / 64, c % 64)
  }

  function First(i0: int, i1: int): Byte
    requires 0 <= i0 < 64 && 0 <= i1 < 64
  {
    i0 * 4 + i1 / 16
  }

  function Second(i1: int, i2: int): Byte
    requires 0 <= i1 < 64 && 0 <= i2 < 64
  {
    i1 % 16 * 16 + i2 / 4
  }

  function Third(i2: int, i3: int): Byte
    requires 0 <= i2 < 64 && 0 <= i3 < 64
  {
    i2 % 4 * 64 + i3
  }

  /** One to three bytes as four characters. */
  function EncodeGroup(data: seq<Byte>): (s: string)
    requires 1 <= |data| <= 3
    ensures |s| == 4
  {
    var (i0, i1, i2, i3) := Indices(data[0], if |data| > 1 then data[1] else 0, if |data| > 2 then data[2] else 0);
    [Char(i0), Char(i1), if |data| > 1 then Char(i2) else '=', if |data| > 2 then Char(i3) else '=']
  }

  function DecodeGroup(s: string): Option<seq<Byte>>
    requires |s| == 4
  {
    var i0 :- Index(s[0]);
    var i1 :- Index(s[1]);
    if s[2] == '=' && s[3] == '=' then Some([First(i0, i1)]) else
    var i2 :- Index(s[2]);
    if s[3] == '=' then Some([First(i0, i1), Second(i1, i2)]) else
    var i3 :- Index(s[3]);
    Some([First(i0, i1), Second(i1, i2), Third(i2, i3)])
  }

  function Encode(data: seq<Byte>): string {
    if |data| == 0 then ""
    else if |data| <= 3 then EncodeGroup(data)
    else EncodeGroup(data[..3]) + Encode(data[3..])
  }

  /** Strict decoding: only the alphabet, groups of four, padding only in the last group. */
  function Decode(s: string): Option<seq<Byte>> {
    if s == "" then Some([])
    else if |s| < 4 then None
    else
      var group :- DecodeGroup(s[..4]);
      if |s| > 4 && |group| < 3 then None else
      var rest :- Decode(s[4..]);
      Some(group + rest)
  }

  lemma IndexChar(i: int)
    requires 0 <= i < 64
    ensures Index(Char(i)) == Some(i) && Char(i) != '='
  {
  }

  lemma IndicesInverse(a: Byte, b: Byte, c: Byte)
    ensures var (i0, i1, i2, i3) := Indices(a, b, c);
            && 0 <= i0 < 64 && 0 <= i1 < 64 && 0 <= i2 < 64 && 0 <= i3 < 64
            && First(i0, i1) == a && Second(i1, i2) == b && Third(i2, i3) == c
  {
  }

  lemma GroupRoundTrip(data: seq<Byte>)
    requires 1 <= |data| <= 3
    ensures |EncodeGroup(data)| == 4 && DecodeGroup(EncodeGroup(data)) == Some(data)
  {
    var a, b, c: Byte := data[0], if |data| > 1 then data[1] else 0, if |data| > 2 then data[2] else 0;
    IndicesInverse(a, b, c);
    var (i0, i1, i2, i3) := Indices(a, b, c);
    IndexChar(i0);
    IndexChar(i1);
    IndexChar(i2);
    IndexChar(i3);
    var s := EncodeGroup(data);
    assert s[0] == Char(i0) && s[1] == Char(i1);
    if |data| == 1 {
      assert data == [a];
    } else if |data| == 2 {
      assert s[2] == Char(i2) && data == [a, b];
    } else {
      assert s[2] == Char(i2) && s[3] == Char(i3) && data == [a, b, c];
    }
  }

  lemma DecodeConcat(group: string, g: seq<Byte>, rest: string, r: seq<Byte>)
    requires |group| == 4 && DecodeGroup(group) == Some(g) && Decode(rest) == Some(r)
    requires |g| == 3 || rest == ""
    ensures Decode(group + rest) == Some(g + r)
  {
    var s := group + rest;
    assert s[..4] == group && s[4..] == rest;
  }

  /** Decoding inverts encoding on every byte string. */
  lemma {:induction false} RoundTrip(data: seq<Byte>)
    ensures Decode(Encode(data)) == Some(data)
  {
    if |data| == 0 {
    } else if |data| <= 3 {
      GroupRoundTrip(data);
      DecodeConcat(EncodeGroup(data), data, "", []);
      assert EncodeGroup(data) + "" == EncodeGroup(data) && data + [] == data;
    } else {
      GroupRoundTrip(data[..3]);
      RoundTrip(data[3..]);
      DecodeConcat(EncodeGroup(data[..3]), data[..3], Encode(data[3..]), data[3..]);
      assert data[..3] + data[3..] == data;
    }
  }

  /** How many groups so many bytes make. */
  function Groups(n: nat): nat {
    if n == 0 then 0 else if n <= 3 then 1 else 1 + Groups(n - 3)
  }

  lemma {:induction false} GroupsAreThirds(n: nat)
    ensures Groups(n) == (n + 2) / 3
  {
    if n > 3 {
      GroupsAreThirds(n - 3);
    }
  }

  lemma {:induction false} EncodedLength(data: seq<Byte>)
    ensures |Encode(data)| == 4 * Groups(|data|)
  {
    if |data| > 3 {
      EncodedLength(data[3..]);
    }
  }

  // ----- The alphabet and the groups -----

  /** The alphabet by its code points: the upper-case letters, the lower-case letters, the
      digits, `+` and `/`. */
  lemma CharMeans(i: int)
    requires 0 <= i < 64
    ensures Char(i) as int
            == if i <= 25 then i + 65 else if i <= 51 then i + 71 else if i <= 61 then i - 4
               else if i == 62 then 43 else 47
  {
  }

  lemma IndicesMean(a: Byte, b: Byte, c: Byte)
    ensures var (i, j, k, l) := Indices(a, b, c);
            && 0 <= i < 64 && 0 <= j < 64 && 0 <= k < 64 && 0 <= l < 64
            && 65536 * a + 256 * b + c == 262144 * i + 4096 * j + 64 * k + l
  {
  }

  lemma DigitsUnique(a: (int, int, int, int), b: (int, int, int, int))
    requires 0 <= a.0 < 64 && 0 <= a.1 < 64 && 0 <= a.2 < 64 && 0 <= a.3 < 64
    requires 0 <= b.0 < 64 && 0 <= b.1 < 64 && 0 <= b.2 < 64 && 0 <= b.3 < 64
    requires 262144 * a.0 + 4096 * a.1 + 64 * a.2 + a.3 == 262144 * b.0 + 4096 * b.1 + 64 * b.2 + b.3
    ensures a == b
  {
    assert a.0 == b.0;
    assert a.1 == b.1;
  }

  /** Three bytes are a number of 24 bits, of which every character gives six, the most
      significant first. */
  lemma GroupMeans(a: Byte, b: Byte, c: Byte, i: int, j: int, k: int, l: int)
    requires 0 <= i < 64 && 0 <= j < 64 && 0 <= k < 64 && 0 <= l < 64
    requires 65536 * a + 256 * b + c == 262144 * i + 4096 * j + 64 * k + l
    ensures EncodeGroup([a, b, c]) == [Char(i), Char(j), Char(k), Char(l)]
    ensures c == 0 ==> EncodeGroup([a, b]) == [Char(i), Char(j), Char(k), '=']
    ensures b == 0 && c == 0 ==> EncodeGroup([a]) == [Char(i), Char(j), '=', '=']
  {
    IndicesMean(a, b, c);
    var (i', j', k', l') := Indices(a, b, c);
    DigitsUnique((i', j', k', l'), (i, j, k, l));
    assert i' == i && j' == j && k' == k && l' == l;
  }

  /** Groups of three are encoded one after the other. */
  lemma EncodeMeans(group: seq<Byte>, rest: seq<Byte>)
    requires |group| == 3
    ensures Encode([]) == "" && Encode(group + rest) == EncodeGroup(group) + Encode(rest)
  {
    var data := group + rest;
    assert data[..3] == group && data[3..] == rest;
    if rest == [] {
      assert data == group && EncodeGroup(group) + "" == EncodeGroup(group);
    }
  }

  /** A character of the alphabet, or padding: the last character, or the last two. */
  ghost predicate PaddedAt(s: string, i: int)
    requires 0 <= i < |s|
  {
    || Index(s[i]).Some?
    || (s[i] == '=' && i == |s| - 1)
    || (s[i] == '=' && i == |s| - 2 && s[|s| - 1] == '=')
  }

  ghost predicate Padded(s: string) {
    |s| % 4 == 0 && forall i | 0 <= i < |s| :: PaddedAt(s, i)
  }

  lemma GroupAccepts(s: string)
    requires |s| == 4
    ensures DecodeGroup(s).Some? <==> Padded(s)
    ensures DecodeGroup(s).Some? && |DecodeGroup(s).value| == 3
            <==> Index(s[0]).Some? && Index(s[1]).Some? && Index(s[2]).Some? && Index(s[3]).Some?
  {
    if Padded(s) {
      assert PaddedAt(s, 0) && PaddedAt(s, 1) && PaddedAt(s, 2) && PaddedAt(s, 3);
    }
  }

  lemma PaddedRest(s: string)
    requires |s| > 4
    ensures Padded(s) <==>
              && Index(s[0]).Some? && Index(s[1]).Some? && Index(s[2]).Some? && Index(s[3]).Some?
              && Padded(s[4..])
  {
    var rest := s[4..];
    if |s| % 4 == 0 {
      forall i | 0 <= i < |rest| ensures PaddedAt(rest, i) <==> PaddedAt(s, i + 4) {
      }
      forall i | 0 <= i < 4 ensures PaddedAt(s, i) <==> Index(s[i]).Some? {
      }
      if Padded(s) {
        assert PaddedAt(s, 0) && PaddedAt(s, 1) && PaddedAt(s, 2) && PaddedAt(s, 3);
      } else {
        var i :| 0 <= i < |s| && !PaddedAt(s, i);
        assert i >= 4 ==> !PaddedAt(rest, i - 4);
      }
    }
  }

  /** What the strict decoder takes. */
  lemma {:induction false} DecodeAccepts(s: string)
    ensures Decode(s).Some? <==> Padded(s)
  {
    if |s| >= 4 {
      GroupAccepts(s[..4]);
      assert s[..4][0] == s[0] && s[..4][1] == s[1] && s[..4][2] == s[2] && s[..4][3] == s[3];
      if |s| == 4 {
        assert s[..4] == s && s[4..] == "";
      } else {
        PaddedRest(s);
        DecodeAccepts(s[4..]);
      }
    }
  }
}
