/** The base64 codec (sections 3 and 4 of RFC 4648). Bit operations are written as arithmetic: every `|`
  * of the code joins values whose bits do not overlap, so it is a sum. */
module Base64 {
  import opened Wrappers

  type Byte = x: int | 0 <= x < 256

  type Sextet = x: int | 0 <= x < 64

  datatype Error = InvalidLength | InvalidPadding | InvalidCharacter

  type Result<+T> = Wrappers.Result<T, Error>

  const ALPHABET: string :=
    "ABCDEFGH" + "IJKLMNOP" + "QRSTUVWX" + "YZabcdef" + "ghijklmn" + "opqrstuv" + "wxyz0123" + "456789+/"

  const PAD: char := '='

  // The characters the decoder gives a value to.
  predicate IsValue(c: char) {
    'A' <= c <= 'Z' || 'a' <= c <= 'z' || '0' <= c <= '9' || c == '+' || c == '/'
  }

  function Value(c: char): Sextet
    requires IsValue(c)
  {
    if 'A' <= c <= 'Z' then c as int - 0x41
    else if 'a' <= c <= 'z' then c as int - 0x47
    else if '0' <= c <= '9' then c as int + 0x04
    else if c == '+' then 0x3E
    else 0x3F
  }

  function Char(v: Sextet): (c: char)
    ensures IsValue(c) && Value(c) == v && c != PAD
  {
    if v < 26 then (v + 0x41) as char
    else if v < 52 then (v + 0x47) as char
    else if v < 62 then (v - 0x04) as char
    else if v == 62 then '+'
    else '/'
  }

  /** The encoder's table and the decoder's ranges describe the same one-to-one correspondence. */
  lemma {:induction false} AlphabetIsChar(v: Sextet)
    ensures |ALPHABET| == 64 && ALPHABET[v] == Char(v)
  {
  }

  lemma {:induction false} CharOfValue(c: char)
    requires IsValue(c)
    ensures Char(Value(c)) == c
  {
  }

  // --- Specifications ---

  function Quad(a: Sextet, b: Sextet, c: Sextet, d: Sextet): string {
    [Char(a), Char(b), Char(c), Char(d)]
  }

  // Four characters for three bytes.
  function Cut(x: Byte, y: Byte, z: Byte): (s: string)
    ensures |s| == 4
  {
    Quad(x / 4, x % 4 * 16 + y / 16, y % 16 * 4 + z / 64, z % 64)
  }

  // The characters for the last bytes, fewer than three.
  function Tail(b: seq<Byte>): (s: string)
    requires |b| < 3
    ensures |s| == if b == [] then 0 else 4
  {
    if b == [] then []
    else if |b| == 1 then [Char(b[0] / 4), Char(b[0] % 4 * 16), PAD, PAD]
    else [Char(b[0] / 4), Char(b[0] % 4 * 16 + b[1] / 16), Char(b[1] % 16 * 4), PAD]
  }

  function Encode(b: seq<Byte>): string {
    if |b| < 3 then Tail(b) else Cut(b[0], b[1], b[2]) + Encode(b[3..])
  }

  function First(a: Sextet, b: Sextet): Byte {
    a * 4 + b / 16
  }

  function Second(b: Sextet, c: Sextet): Byte {
    b % 16 * 16 + c / 4
  }

  function Third(c: Sextet, d: Sextet): Byte {
    c % 4 * 64 + d
  }

  // The error for a character without a value.
  function Reject(c: char): Error {
    if c == PAD then InvalidPadding else InvalidCharacter
  }

  // Decoding group after group of four characters.
  function Groups(s: string): Result<seq<Byte>> {
    if s == [] then Ok([])
    else if |s| < 4 then Err(InvalidLength)
    else if !IsValue(s[0]) then Err(Reject(s[0]))
    else if !IsValue(s[1]) then Err(Reject(s[1]))
    else if !IsValue(s[2]) then
      if s[2] == PAD && |s| == 4 then Ok([First(Value(s[0]), Value(s[1]))]) else Err(Reject(s[2]))
    else if !IsValue(s[3]) then
      if s[3] == PAD && |s| == 4 then Ok(Pair(s)) else Err(Reject(s[3]))
    else Prepend(Triple(s), Groups(s[4..]))
  }

  function Pair(s: string): seq<Byte>
    requires |s| >= 3 && IsValue(s[0]) && IsValue(s[1]) && IsValue(s[2])
  {
    [First(Value(s[0]), Value(s[1])), Second(Value(s[1]), Value(s[2]))]
  }

  function Triple(s: string): seq<Byte>
    requires |s| >= 4 && forall i | 0 <= i < 4 :: IsValue(s[i])
  {
    Pair(s) + [Third(Value(s[2]), Value(s[3]))]
  }

  function Prepend(b: seq<Byte>, r: Result<seq<Byte>>): Result<seq<Byte>> {
    if r.Ok? then Ok(b + r.value) else r
  }

  function Decode(s: string): Result<seq<Byte>> {
    if |s| % 4 != 0 then Err(InvalidLength) else Groups(s)
  }

  // --- Round trips ---

  // Three bytes cut into sextets and joined again.
  lemma {:induction false} CutJoin(x: Byte, y: Byte, z: Byte)
    ensures First(x / 4, x % 4 * 16 + y / 16) == x
    ensures Second(x % 4 * 16 + y / 16, y % 16 * 4 + z / 64) == y
    ensures Third(y % 16 * 4 + z / 64, z % 64) == z
  {
  }

  // Four sextets joined to bytes and cut again.
  lemma {:induction false} JoinCut(a: Sextet, b: Sextet, c: Sextet, d: Sextet)
    ensures First(a, b) / 4 == a
    ensures First(a, b) % 4 * 16 + Second(b, c) / 16 == b
    ensures Second(b, c) % 16 * 4 + Third(c, d) / 64 == c
    ensures Third(c, d) % 64 == d
    ensures First(a, b) % 4 * 16 == b <==> b % 16 == 0
    ensures Second(b, c) % 16 * 4 == c <==> c % 4 == 0
  {
  }

  lemma {:induction false} GroupsQuad(a: Sextet, b: Sextet, c: Sextet, d: Sextet, rest: string)
    ensures Groups(Quad(a, b, c, d) + rest) == Prepend([First(a, b), Second(b, c), Third(c, d)], Groups(rest))
  {
    var s := Quad(a, b, c, d) + rest;
    assert s[4..] == rest && s[0] == Char(a) && s[1] == Char(b) && s[2] == Char(c) && s[3] == Char(d);
    assert Triple(s) == [First(a, b), Second(b, c), Third(c, d)];
  }

  lemma {:induction false} RoundTripTail(b: seq<Byte>)
    requires |b| < 3
    ensures Groups(Tail(b)) == Ok(b)
  {
    if |b| == 1 {
      CutJoin(b[0], 0, 0);
      assert b == [b[0]];
    } else if |b| == 2 {
      CutJoin(b[0], b[1], 0);
      assert b == [b[0], b[1]];
    }
  }

  lemma {:induction false} RoundTripCut(x: Byte, y: Byte, z: Byte, text: string, rest: seq<Byte>)
    requires Groups(text) == Ok(rest)
    ensures Groups(Cut(x, y, z) + text) == Ok([x, y, z] + rest)
  {
    CutJoin(x, y, z);
    GroupsQuad(x / 4, x % 4 * 16 + y / 16, y % 16 * 4 + z / 64, z % 64, text);
  }

  /** Every three bytes, or part of three, take four characters. */
  lemma {:induction false} EncodeLength(b: seq<Byte>)
    ensures |Encode(b)| == (|b| + 2) / 3 * 4
  {
    if |b| >= 3 {
      EncodeLength(b[3..]);
      assert (|b| + 2) / 3 == (|b| - 1) / 3 + 1;
    }
  }

  lemma {:induction false} GroupsOfEncode(b: seq<Byte>)
    ensures Groups(Encode(b)) == Ok(b)
  {
    if |b| < 3 {
      RoundTripTail(b);
    } else {
      var rest := b[3..];
      GroupsOfEncode(rest);
      RoundTripCut(b[0], b[1], b[2], Encode(rest), rest);
      assert b == [b[0], b[1], b[2]] + rest;
    }
  }

  /** Decoding inverts encoding on every byte string. */
  lemma {:induction false} RoundTrip(b: seq<Byte>)
    ensures Decode(Encode(b)) == Ok(b)
  {
    EncodeLength(b);
    Divides(|Encode(b)|, 4, (|b| + 2) / 3, 0);
    GroupsOfEncode(b);
  }

  // Position `i` may hold what it holds in a text that decodes.
  predicate Fits(s: string, i: nat)
    requires i < |s|
  {
    || IsValue(s[i])
    || (s[i] == PAD && i + 2 >= |s|)
    || (i + 1 == |s| && i > 0 && s[i - 1] == PAD)
  }

  /** A text decodes if and only if its length is a multiple of four and every character has a value, except
    * that either of the last two may be a pad and that nothing is asked of the last one after a pad. */
  lemma {:induction false} DecodesIff(s: string)
    ensures Decode(s).Ok? <==> |s| % 4 == 0 && forall i | 0 <= i < |s| :: Fits(s, i)
  {
    if |s| % 4 == 0 && s != [] {
      if |s| > 4 {
        DecodesIff(s[4..]);
        FitsLater(s);
        FitsFirst(s);
      } else {
        assert Groups(s[4..]) == Ok([]);
        assert Fits(s, 0) <==> IsValue(s[0]);
        assert Fits(s, 1) <==> IsValue(s[1]);
        assert Fits(s, 2) <==> IsValue(s[2]) || s[2] == PAD;
        assert Fits(s, 3) <==> IsValue(s[3]) || s[3] == PAD || s[2] == PAD;
      }
    }
  }

  lemma {:induction false} FitsFirst(s: string)
    requires |s| > 4 && |s| % 4 == 0
    ensures (forall i | 0 <= i < 4 :: Fits(s, i)) <==> forall i | 0 <= i < 4 :: IsValue(s[i])
    ensures (forall i | 0 <= i < |s| :: Fits(s, i)) <==>
            (forall i | 0 <= i < 4 :: Fits(s, i)) && forall i | 4 <= i < |s| :: Fits(s, i)
  {
    forall i | 0 <= i < 4 ensures Fits(s, i) <==> IsValue(s[i]) {
    }
  }

  lemma {:induction false} FitsLater(s: string)
    requires |s| > 4 && |s| % 4 == 0
    ensures (forall i | 4 <= i < |s| :: Fits(s, i)) <==> forall i | 0 <= i < |s| - 4 :: Fits(s[4..], i)
  {
    forall i | 4 <= i < |s| ensures Fits(s, i) <==> Fits(s[4..], i - 4) {
    }
    if forall i | 4 <= i < |s| :: Fits(s, i) {
      forall i | 0 <= i < |s| - 4 ensures Fits(s[4..], i) {
        assert Fits(s, i + 4);
      }
    }
  }

  // The form encoders produce: pads come last, and the bits they leave over are zero (section 3.5).
  predicate Canonical(s: string)
    requires |s| % 4 == 0
  {
    var n := |s|;
    s == [] || (
      && (s[n - 2] == PAD ==> s[n - 1] == PAD && IsValue(s[n - 3]) && Value(s[n - 3]) % 16 == 0)
      && (s[n - 1] == PAD && s[n - 2] != PAD ==> IsValue(s[n - 2]) && Value(s[n - 2]) % 4 == 0))
  }

  lemma {:induction false} ReencodesByte(s: string)
    requires |s| == 4 && Decode(s).Ok? && s[2] == PAD
    ensures Encode(Decode(s).value) == s <==> Canonical(s)
  {
    var a, b := Value(s[0]), Value(s[1]);
    CharOfValue(s[0]);
    CharOfValue(s[1]);
    JoinCut(a, b, 0, 0);
    assert Encode(Decode(s).value) == [s[0], Char(First(a, b) % 4 * 16), PAD, PAD];
  }

  lemma {:induction false} ReencodesPair(s: string)
    requires |s| == 4 && Decode(s).Ok? && s[2] != PAD && s[3] == PAD
    ensures Encode(Decode(s).value) == s <==> Canonical(s)
  {
    var a, b, c := Value(s[0]), Value(s[1]), Value(s[2]);
    CharOfValue(s[0]);
    CharOfValue(s[1]);
    CharOfValue(s[2]);
    JoinCut(a, b, c, 0);
    assert Encode(Decode(s).value) == [s[0], s[1], Char(Second(b, c) % 16 * 4), PAD];
  }

  lemma {:induction false} ReencodesTriple(s: string)
    requires |s| == 4 && Decode(s).Ok? && s[2] != PAD && s[3] != PAD
    ensures Encode(Decode(s).value) == s
  {
    CharOfValue(s[0]);
    CharOfValue(s[1]);
    CharOfValue(s[2]);
    CharOfValue(s[3]);
    JoinCut(Value(s[0]), Value(s[1]), Value(s[2]), Value(s[3]));
    assert Groups(s[4..]) == Ok([]);
    assert Decode(s).value == Triple(s) && Triple(s)[3..] == [];
    assert Encode(Decode(s).value) == [s[0], s[1], s[2], s[3]];
  }

  /** Encoding gives an accepted text back if and only if the text is canonical. */
  lemma {:induction false} ReencodesIff(s: string)
    requires Decode(s).Ok?
    ensures Encode(Decode(s).value) == s <==> Canonical(s)
  {
    if |s| == 4 {
      if s[2] == PAD {
        ReencodesByte(s);
      } else if s[3] == PAD {
        ReencodesPair(s);
      } else {
        ReencodesTriple(s);
      }
    } else if |s| > 4 {
      ReencodesIff(s[4..]);
      ReencodeQuad(s);
      Cancel(s, Encode(Decode(s[4..]).value));
      CanonicalLater(s);
    }
  }

  lemma {:induction false} Cancel(s: string, rest: string)
    requires |s| > 4
    ensures s[..4] + rest == s <==> rest == s[4..]
  {
    assert (s[..4] + rest)[4..] == rest && s[..4] + s[4..] == s;
  }

  lemma {:induction false} CanonicalLater(s: string)
    requires |s| > 4 && |s| % 4 == 0
    ensures Canonical(s) == Canonical(s[4..])
  {
  }

  lemma {:induction false} RecutTriple(s: string)
    requires |s| >= 4 && forall i | 0 <= i < 4 :: IsValue(s[i])
    ensures Cut(Triple(s)[0], Triple(s)[1], Triple(s)[2]) == s[..4]
  {
    JoinCut(Value(s[0]), Value(s[1]), Value(s[2]), Value(s[3]));
    CharOfValue(s[0]);
    CharOfValue(s[1]);
    CharOfValue(s[2]);
    CharOfValue(s[3]);
  }

  lemma {:induction false} EncodeAfter(t: seq<Byte>, rest: seq<Byte>)
    requires |t| == 3
    ensures Encode(t + rest) == Cut(t[0], t[1], t[2]) + Encode(rest)
  {
    assert (t + rest)[3..] == rest;
  }

  lemma {:induction false} ReencodeQuad(s: string)
    requires |s| > 4 && Decode(s).Ok?
    ensures Decode(s[4..]).Ok? && Encode(Decode(s).value) == s[..4] + Encode(Decode(s[4..]).value)
  {
    RecutTriple(s);
    EncodeAfter(Triple(s), Decode(s[4..]).value);
  }

  // --- What the characters spell ---

  // The number spelled by the characters of `s`, six bits each.
  function Bits(s: string): nat
    requires forall i | 0 <= i < |s| :: IsValue(s[i])
  {
    if s == [] then 0 else Bits(s[..|s| - 1]) * 64 + Value(s[|s| - 1])
  }

  // The number spelled by the bytes of `b`, eight bits each.
  function Number(b: seq<Byte>): nat {
    if b == [] then 0 else Number(b[..|b| - 1]) * 256 + b[|b| - 1]
  }

  // The number spelled by the first `n` characters of a group.
  lemma {:induction false} BitsOf(s: string, n: nat)
    requires n <= |s| && n <= 4 && forall k | 0 <= k < n :: IsValue(s[k])
    ensures n == 1 ==> Bits(s[..n]) == Value(s[0])
    ensures n == 2 ==> Bits(s[..n]) == Value(s[0]) * 64 + Value(s[1])
    ensures n == 3 ==> Bits(s[..n]) == (Value(s[0]) * 64 + Value(s[1])) * 64 + Value(s[2])
    ensures n == 4 ==> Bits(s[..n]) == ((Value(s[0]) * 64 + Value(s[1])) * 64 + Value(s[2])) * 64 + Value(s[3])
  {
    if n > 0 {
      BitsOf(s, n - 1);
      assert s[..n][..n - 1] == s[..n - 1];
      assert n == 1 ==> s[..1][..0] == [];
    }
  }

  lemma {:induction false} NumberOf(b: seq<Byte>)
    requires 1 <= |b| <= 3
    ensures |b| == 1 ==> Number(b) == b[0]
    ensures |b| == 2 ==> Number(b) == b[0] as int * 256 + b[1]
    ensures |b| == 3 ==> Number(b) == (b[0] as int * 256 + b[1]) * 256 + b[2]
  {
    if |b| > 1 {
      NumberOf(b[..|b| - 1]);
    } else {
      assert b[..0] == [];
    }
  }

  // The group of three bytes, or what is left of it, that starts at byte `3 * i`.
  function GroupAt(b: seq<Byte>, i: nat): seq<Byte>
    requires 3 * i < |b|
  {
    if 3 * i + 3 <= |b| then b[3 * i..3 * i + 3] else b[3 * i..]
  }

  // A group of four characters spells the bytes, followed by zero bits up to the next character and pads.
  predicate Spells(s: string, b: seq<Byte>)
    requires |s| == 4 && 1 <= |b| <= 3
  {
    && (forall k | 0 <= k <= |b| :: IsValue(s[k]))
    && (forall k | |b| < k < 4 :: s[k] == PAD)
    && Bits(s[..|b| + 1]) == Number(b) * (if |b| == 1 then 16 else if |b| == 2 then 4 else 1)
  }

  lemma {:induction false} TailSpells(b: seq<Byte>)
    requires 1 <= |b| < 3
    ensures Spells(Tail(b), b)
  {
    NumberOf(b);
    BitsOf(Tail(b), |b| + 1);
  }

  lemma {:induction false} CutSpells(x: Byte, y: Byte, z: Byte)
    ensures Spells(Cut(x, y, z), [x, y, z])
  {
    var s := Cut(x, y, z);
    NumberOf([x, y, z]);
    BitsOf(s, 4);
    assert s[..4] == s;
  }

  // The characters for the bytes from `n` on that belong to one group.
  function Group(b: seq<Byte>, n: nat): (s: string)
    requires n < |b|
    ensures |s| == 4
  {
    if n + 3 <= |b| then Cut(b[n], b[n + 1], b[n + 2]) else Tail(b[n..])
  }

  lemma {:induction false} GroupSpells(b: seq<Byte>, i: nat)
    requires 3 * i < |b|
    ensures Spells(Group(b, 3 * i), GroupAt(b, i))
  {
    var n := 3 * i;
    if n + 3 <= |b| {
      CutSpells(b[n], b[n + 1], b[n + 2]);
      assert GroupAt(b, i) == [b[n], b[n + 1], b[n + 2]];
    } else {
      TailSpells(b[n..]);
    }
  }

  lemma {:induction false} GroupLater(b: seq<Byte>, n: nat)
    requires 3 <= n < |b|
    ensures Group(b[3..], n - 3) == Group(b, n)
  {
    assert b[3..][n - 3..] == b[n..];
  }

  lemma {:induction false} FirstGroup(b: seq<Byte>)
    requires b != []
    ensures |Encode(b)| >= 4 && Encode(b)[0..4] == Group(b, 0)
  {
    assert b[0..] == b;
  }

  lemma {:induction false} EncodeAt(b: seq<Byte>, i: nat)
    requires 3 * i < |b|
    ensures 4 * i + 4 <= |Encode(b)|
    ensures Encode(b)[4 * i..4 * i + 4] == Group(b, 3 * i)
  {
    if i == 0 {
      FirstGroup(b);
    } else {
      EncodeAt(b[3..], i - 1);
      EncodeLater(b, i);
    }
  }

  lemma {:induction false} EncodeLater(b: seq<Byte>, i: nat)
    requires 0 < 3 * i < |b| && 4 * i <= |Encode(b[3..])|
    requires Encode(b[3..])[4 * (i - 1)..4 * i] == Group(b[3..], 3 * (i - 1))
    ensures 4 * i + 4 <= |Encode(b)| && Encode(b)[4 * i..4 * i + 4] == Group(b, 3 * i)
  {
    LaterGroup(Cut(b[0], b[1], b[2]), Encode(b[3..]), i);
    GroupLater(b, 3 * i);
  }

  /** Section 4 of RFC 4648 on every byte string: each group of four characters spells the bits of its
    * group of three bytes, most significant first, with zero bits and pads after a short last group. */
  lemma {:induction false} EncodeSpells(b: seq<Byte>, i: nat)
    requires 3 * i < |b|
    ensures 4 * i + 4 <= |Encode(b)| && Spells(Encode(b)[4 * i..4 * i + 4], GroupAt(b, i))
  {
    EncodeAt(b, i);
    GroupSpells(b, i);
  }

  lemma {:induction false} LaterGroup(first: string, rest: string, i: nat)
    requires |first| == 4 && i > 0 && 4 * i <= |rest|
    ensures (first + rest)[4 * i..4 * i + 4] == rest[4 * (i - 1)..4 * (i - 1) + 4]
  {
  }

  // --- The loops ---

  // One character of the encoder's table.
  method Letter(v: Sextet) returns (c: char)
    ensures c == Char(v)
  {
    AlphabetIsChar(v);
    c := ALPHABET[v];
  }

  // base64_encode
  method EncodeBytes(input: seq<Byte>) returns (result: string)
    ensures result == Encode(input)
  {
    result := [];
    var i := 0;
    while i + 2 < |input|
      invariant i <= |input| && Encode(input) == result + Encode(input[i..])
    {
      var c0 := Letter(input[i] / 4);
      var c1 := Letter(input[i] % 4 * 16 + input[i + 1] / 16);
      var c2 := Letter(input[i + 1] % 16 * 4 + input[i + 2] / 64);
      var c3 := Letter(input[i + 2] % 64);
      EncodeMore(input, i, result);
      result := result + [c0, c1, c2, c3];
      i := i + 3;
    }
    var rest := EncodeRest(input[i..]);
    result := result + rest;
  }

  // The switch at the end of base64_encode.
  method EncodeRest(rest: seq<Byte>) returns (result: string)
    requires |rest| < 3
    ensures result == Tail(rest)
  {
    result := [];
    if |rest| == 2 {
      var c0 := Letter(rest[0] / 4);
      var c1 := Letter(rest[0] % 4 * 16 + rest[1] / 16);
      var c2 := Letter(rest[1] % 16 * 4);
      result := [c0, c1, c2, PAD];
    } else if |rest| == 1 {
      var c0 := Letter(rest[0] / 4);
      var c1 := Letter(rest[0] % 4 * 16);
      result := [c0, c1, PAD, PAD];
    }
  }

  lemma {:induction false} EncodeMore(b: seq<Byte>, i: nat, before: string)
    requires i + 2 < |b|
    ensures before + Encode(b[i..]) == before + Cut(b[i], b[i + 1], b[i + 2]) + Encode(b[i + 3..])
  {
    assert b[i..][3..] == b[i + 3..];
  }

  // The number of values that `i` sextets can take.
  function Range(i: nat): nat
    requires i <= 4
  {
    if i == 0 then 1 else if i == 1 then 64 else if i == 2 then 4096 else if i == 3 then 262144 else 16777216
  }

  lemma {:induction false} Divides(x: nat, m: nat, q: int, r: nat)
    requires x == q * m + r && r < m
    ensures x / m == q && x % m == r
  {
    var d := x / m - q;
    assert d * m == r - x % m;
    assert d >= 1 ==> d * m >= m;
    assert d <= -1 ==> d * m + m <= 0;
  }

  // Shifting the 32-bit accumulator keeps its low bits, whatever earlier groups left above them.
  lemma {:induction false} Shift(temp: nat, i: nat, bits: nat)
    requires i < 4 && temp < 0x1_0000_0000 && temp % Range(i) == bits
    ensures temp * 64 % 0x1_0000_0000 % Range(i + 1) == bits * 64
    ensures temp * 64 % 0x1_0000_0000 % 64 == 0
  {
    var k, u, w := temp / Range(i), temp * 64 / 0x1_0000_0000, temp * 64 % 0x1_0000_0000;
    Divides(w, 64, temp - u * 0x400_0000, 0);
    if i == 0 {
      Divides(w, 64, k - u * 0x400_0000, 0);
    } else if i == 1 {
      Divides(w, 4096, k - u * 0x10_0000, bits * 64);
    } else if i == 2 {
      Divides(w, 262144, k - u * 0x4000, bits * 64);
    } else {
      Divides(w, 16777216, k - u * 0x100, bits * 64);
    }
  }

  lemma {:induction false} AddLow(temp: nat, i: nat, bits: nat, v: Sextet)
    requires i < 4 && temp < 0x1_0000_0000 && temp % 64 == 0 && temp % Range(i + 1) == bits
    ensures temp + v < 0x1_0000_0000 && (temp + v) % Range(i + 1) == bits + v
  {
    if i == 0 {
      AddLowAt(temp, 64, 1, v);
    } else if i == 1 {
      AddLowAt(temp, 4096, 64, v);
    } else if i == 2 {
      AddLowAt(temp, 262144, 4096, v);
    } else {
      AddLowAt(temp, 16777216, 262144, v);
    }
    assert temp / 64 < 0x400_0000;
  }

  lemma {:induction false} AddLowAt(temp: nat, m: nat, n: nat, v: Sextet)
    requires m == 64 * n && n > 0 && temp % 64 == 0
    ensures (temp + v) % m == temp % m + v
  {
    var k, q, r := temp / 64, temp / m, temp % m;
    assert temp == 64 * k && temp == q * m + r;
    assert q * m == 64 * (q * n);
    RoomBelow(k - q * n, n, v);
    Divides(temp + v, m, q, r + v);
  }

  lemma {:induction false} RoomBelow(t: int, n: nat, v: Sextet)
    requires 64 * t < 64 * n
    ensures 64 * t + v < 64 * n
  {
  }

  lemma {:induction false} Extract(temp: nat, a: Sextet, b: Sextet, c: Sextet, d: Sextet)
    requires temp % 16777216 == ((a * 64 + b) * 64 + c) * 64 + d
    ensures temp / 65536 % 256 == First(a, b)
    ensures temp / 256 % 256 == Second(b, c)
    ensures temp % 256 == Third(c, d)
  {
    var k, b1, b0, c1, c0 := temp / 16777216, b / 16, b % 16, c / 4, c % 4;
    Divides(temp, 65536, k * 256 + First(a, b), b0 * 4096 + c * 64 + d);
    Divides(temp / 65536, 256, k, First(a, b));
    Divides(temp, 256, k * 65536 + a * 1024 + b * 16 + c1, Third(c, d));
    Divides(temp / 256, 256, k * 256 + First(a, b), Second(b, c));
  }

  lemma {:induction false} ExtractFirst(temp: nat, a: Sextet, b: Sextet)
    requires temp % 262144 == (a * 64 + b) * 64
    ensures temp / 1024 % 256 == First(a, b)
  {
    var k := temp / 262144;
    Divides(temp, 1024, k * 256 + First(a, b), b % 16 * 64);
    Divides(temp / 1024, 256, k, First(a, b));
  }

  lemma {:induction false} BitsMore(s: string, pos: nat, i: nat)
    requires pos + i < |s| && forall k | pos <= k <= pos + i :: IsValue(s[k])
    ensures Bits(s[pos..pos + i + 1]) == Bits(s[pos..pos + i]) * 64 + Value(s[pos + i])
  {
    assert s[pos..pos + i + 1][..i] == s[pos..pos + i];
  }

  lemma {:induction false} LastPair(s: string, temp: nat)
    requires |s| == 4 && s[3] == PAD && forall k | 0 <= k < 3 :: IsValue(s[k])
    requires temp % 16777216 == Bits(s[..3]) * 64
    ensures Groups(s) == Ok([temp / 65536 % 256, temp / 256 % 256])
  {
    BitsOf(s, 3);
    Extract(temp, Value(s[0]), Value(s[1]), Value(s[2]), 0);
  }

  lemma {:induction false} LastByte(s: string, temp: nat)
    requires |s| == 4 && s[2] == PAD && forall k | 0 <= k < 2 :: IsValue(s[k])
    requires temp % 262144 == Bits(s[..2]) * 64
    ensures Groups(s) == Ok([temp / 1024 % 256])
  {
    BitsOf(s, 2);
    ExtractFirst(temp, Value(s[0]), Value(s[1]));
  }

  lemma {:induction false} WholeGroup(s: string, temp: nat)
    requires |s| >= 4 && forall k | 0 <= k < 4 :: IsValue(s[k])
    requires temp % 16777216 == Bits(s[..4])
    ensures Groups(s) == Prepend(Top(temp), Groups(s[4..]))
  {
    BitsOf(s, 4);
    Extract(temp, Value(s[0]), Value(s[1]), Value(s[2]), Value(s[3]));
    assert Triple(s) == Top(temp);
  }

  lemma {:induction false} BadCharacter(s: string, i: nat)
    requires |s| >= 4 && i < 4 && forall k | 0 <= k < i :: IsValue(s[k])
    requires !IsValue(s[i]) && (s[i] == PAD ==> |s| - i > 2)
    ensures Groups(s) == Err(Reject(s[i]))
  {
  }

  // How reading one group of four characters ends.
  datatype Outcome = Full | Last(bytes: seq<Byte>) | Failed(error: Error)

  // The inner loop of base64_decode, from the start of a group.
  method ReadGroup(input: string, pos: nat, temp: nat, ghost n: nat) returns (out: Outcome, temp': nat)
    requires |input| == pos + 4 * n && n > 0 && temp < 0x1_0000_0000
    ensures temp' < 0x1_0000_0000
    ensures match out
            case Failed(e) => Groups(input[pos..]) == Err(e)
            case Last(bytes) => Groups(input[pos..]) == Ok(bytes)
            case Full =>
              (forall i | pos <= i < pos + 4 :: IsValue(input[i])) && temp' % 16777216 == Bits(input[pos..pos + 4])
  {
    out, temp' := Full, temp;
    var i := 0;
    while i < 4
      invariant i <= 4 && temp' < 0x1_0000_0000
      invariant forall k | pos <= k < pos + i :: IsValue(input[k])
      invariant temp' % Range(i) == Bits(input[pos..pos + i])
    {
      ghost var s := input[pos..];
      assert s[..i] == input[pos..pos + i];
      Shift(temp', i, Bits(input[pos..pos + i]));
      temp' := temp' * 64 % 0x1_0000_0000;
      var c := input[pos + i];
      if IsValue(c) {
        AddLow(temp', i, Bits(input[pos..pos + i]) * 64, Value(c));
        BitsMore(input, pos, i);
        temp' := temp' + Value(c);
      } else if c == PAD {
        var left := |input| - (pos + i);
        if left == 1 {
          LastPair(s, temp');
          out := Last([temp' / 65536 % 256, temp' / 256 % 256]);
        } else if left == 2 {
          LastByte(s, temp');
          out := Last([temp' / 1024 % 256]);
        } else {
          BadCharacter(s, i);
          out := Failed(InvalidPadding);
        }
        return;
      } else {
        BadCharacter(s, i);
        out := Failed(InvalidCharacter);
        return;
      }
      i := i + 1;
    }
  }

  // The three bytes in the low 24 bits of the accumulator.
  function Top(temp: nat): seq<Byte> {
    [temp / 65536 % 256, temp / 256 % 256, temp % 256]
  }

  // One turn of the outer loop of base64_decode.
  method NextGroup(input: string, pos: nat, temp: nat, ghost n: nat) returns (out: Outcome, temp': nat)
    requires |input| == pos + 4 * n && n > 0 && temp < 0x1_0000_0000
    ensures temp' < 0x1_0000_0000
    ensures match out
            case Failed(e) => Groups(input[pos..]) == Err(e)
            case Last(bytes) => Groups(input[pos..]) == Ok(bytes)
            case Full => Groups(input[pos..]) == Prepend(Top(temp'), Groups(input[pos + 4..]))
  {
    out, temp' := ReadGroup(input, pos, temp, n);
    if out.Full? {
      ghost var s := input[pos..];
      assert s[..4] == input[pos..pos + 4] && s[4..] == input[pos + 4..];
      WholeGroup(s, temp');
    }
  }

  // base64_decode. The accumulator is never reset between groups.
  method DecodeText(input: string) returns (r: Result<seq<Byte>>)
    ensures r == Decode(input)
  {
    if |input| % 4 != 0 {
      return Err(InvalidLength);
    }
    var decoded: seq<Byte> := [];
    var temp, pos := 0, 0;
    ghost var n: nat := |input| / 4;
    assert input[0..] == input;
    PrependNone(Groups(input));
    while pos < |input|
      invariant |input| == pos + 4 * n && temp < 0x1_0000_0000
      invariant Groups(input) == Prepend(decoded, Groups(input[pos..]))
    {
      var out;
      out, temp := NextGroup(input, pos, temp, n);
      match out
      case Failed(e) => return Err(e);
      case Last(bytes) => return Ok(decoded + bytes);
      case Full =>
        PrependTwice(decoded, Top(temp), Groups(input[pos + 4..]));
        decoded := decoded + Top(temp);
        pos, n := pos + 4, n - 1;
    }
    assert decoded + [] == decoded;
    return Ok(decoded);
  }

  lemma {:induction false} PrependNone(r: Result<seq<Byte>>)
    ensures Prepend([], r) == r
  {
    if r.Ok? {
      assert [] + r.value == r.value;
    }
  }

  lemma {:induction false} PrependTwice(a: seq<Byte>, b: seq<Byte>, r: Result<seq<Byte>>)
    ensures Prepend(a, Prepend(b, r)) == Prepend(a + b, r)
  {
    if r.Ok? {
      assert a + (b + r.value) == a + b + r.value;
    }
  }
}
