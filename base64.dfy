/** The base64 codec of the synchronous (Burmese) example: the standard alphabet of
    section 4 of RFC 4648, `=` padding on encode, and a permissive decoder that skips
    characters outside the alphabet and stops at the first `=`.

    The C++ code works with masks and shifts on `unsigned char`; for values of the
    widths involved they are the divisions and remainders written here:
    `(x & 0xfc) >> 2 == x / 4`, `(x & 0x03) << 4 == (x % 4) * 16`, `(y & 0xf0) >> 4 == y / 16`,
    `(y & 0x0f) << 2 == (y % 16) * 4`, `(z & 0xc0) >> 6 == z / 64`, `z & 0x3f == z % 64`,
    and on decode `(b & 0x30) >> 4 == b / 16`, `(c & 0x3c) >> 2 == c / 4` for sextets.
    No sum overflows a byte, so the `unsigned char` stores truncate nothing. */
module Base64 {
  import opened Common

  type sextet = v: int | 0 <= v < 64

  /** `base64_chars` (lines 100-103), entry by entry; `AlphabetIsTable` shows it is that literal. */
  const Alphabet: string := Table()
  const Pad: char := '='

  lemma AlphabetIsTable()
    ensures Alphabet == "ABCDEFGHIJKLMNOPQRSTUVWXYZ" + "abcdefghijklmnopqrstuvwxyz" + "0123456789+/"
  {
  }

  /** The alphabet entry for `v`, by ranges. */
  function CharOf(v: sextet): char
  {
    if v < 26 then (65 + v) as char
    else if v < 52 then (97 + v - 26) as char
    else if v < 62 then (48 + v - 52) as char
    else if v == 62 then '+' else '/'
  }

  function Table(): (r: string)
    ensures |r| == 64
  {
    seq(64, k requires 0 <= k < 64 => CharOf(k))
  }

  lemma AlphabetAt(v: sextet)
    ensures |Alphabet| == 64 && Alphabet[v] == CharOf(v)
  {
  }

  /** `base64_chars.find(c)`, as a sextet. */
  function ValueOf(c: char): (r: Option<sextet>)
    ensures r.Some? ==> Alphabet[r.value] == c
    ensures r.None? <==> c !in Alphabet
  {
    match IndexOf(Alphabet, c)
    case None => None
    case Some(k) => Some(k)
  }

  /** `base64_chars.find(Alphabet[v])` is `v`: the table has no repeated symbol. */
  lemma {:induction false} FindSymbol(v: sextet)
    ensures ValueOf(Alphabet[v]) == Some(v)
  {
    AlphabetAt(v);
    forall j | 0 <= j < v ensures Alphabet[j] != Alphabet[v] {
      AlphabetAt(j);
    }
  }

  lemma PadNotSymbol()
    ensures Pad !in Alphabet
  {
    forall v: sextet ensures Alphabet[v] != Pad {
      AlphabetAt(v);
    }
  }

  /** No encoder output holds `"`: it can stand inside a JSON string as it is. */
  lemma QuoteNotSymbol()
    ensures '"' !in Alphabet
  {
    forall v: sextet ensures Alphabet[v] != '"' {
      AlphabetAt(v);
    }
  }

  // ---------------------------------------------------------------------------
  // Specification of the encoder
  // ---------------------------------------------------------------------------

  /** `char_array_4` computed from `char_array_3 = [a, b, c]` (lines 114-117). */
  function Quad(a: byte, b: byte, c: byte): seq<sextet>
  {
    [a / 4, (a % 4) * 16 + b / 16, (b % 16) * 4 + c / 64, c % 64]
  }

  /** The sextets emitted for a final partial group of one or two bytes, zero-filled
      (lines 125-134): `i + 1` sextets for `i` leftover bytes. */
  function TailSextets(t: seq<byte>): (r: seq<sextet>)
    requires |t| < 3
    ensures |r| == if |t| == 0 then 0 else |t| + 1
  {
    if |t| == 0 then []
    else if |t| == 1 then Quad(t[0], 0, 0)[..2]
    else Quad(t[0], t[1], 0)[..3]
  }

  /** The sextets of the whole input: complete groups of three bytes from the front,
      then the partial group. */
  function Sextets(s: seq<byte>): seq<sextet>
    decreases |s|
  {
    if |s| < 3 then TailSextets(s) else Quad(s[0], s[1], s[2]) + Sextets(s[3..])
  }

  /** The number of `=` appended, `(3 - n % 3) % 3`: none after complete groups, else
      enough to fill the last group of four. */
  function PadCount(n: nat): nat { if n % 3 == 0 then 0 else 3 - n % 3 }

  /** The alphabet symbols for `v`, `base64_chars[char_array_4[i]]` one by one. */
  function Symbols(v: seq<sextet>): (r: string)
    ensures |r| == |v|
  {
    if |v| == 0 then "" else AlphabetAt(0); Symbols(v[..|v| - 1]) + [Alphabet[v[|v| - 1]]]
  }

  lemma {:induction false} SymbolsAt(v: seq<sextet>, i: nat)
    requires i < |v|
    ensures Symbols(v)[i] == Alphabet[v[i]]
  {
    if i < |v| - 1 {
      SymbolsAt(v[..|v| - 1], i);
    }
  }

  lemma {:induction false} SymbolsAppend(u: seq<sextet>, w: seq<sextet>)
    ensures Symbols(u + w) == Symbols(u) + Symbols(w)
    decreases |w|
  {
    if |w| == 0 {
      assert u + w == u;
    } else {
      assert (u + w)[..|u + w| - 1] == u + w[..|w| - 1];
      SymbolsAppend(u, w[..|w| - 1]);
    }
  }

  lemma SymbolsInAlphabet(v: seq<sextet>)
    ensures forall i :: 0 <= i < |v| ==> Symbols(v)[i] in Alphabet
  {
    forall i | 0 <= i < |v| ensures Symbols(v)[i] in Alphabet {
      SymbolsAt(v, i);
      AlphabetAt(v[i]);
    }
  }

  function Pads(k: nat): (r: string)
    ensures |r| == k && forall i :: 0 <= i < k ==> r[i] == Pad
  {
    if k == 0 then "" else Pads(k - 1) + [Pad]
  }

  /** What `base64_encode` returns for `s`. */
  function EncodeSpec(s: seq<byte>): string
  {
    Symbols(Sextets(s)) + Pads(PadCount(|s|))
  }

  // ---------------------------------------------------------------------------
  // Specification of the decoder
  // ---------------------------------------------------------------------------

  /** The part of the input the decoder looks at: everything before the first `=`. */
  function BeforePad(s: string): (r: string)
    ensures Pad !in r
    ensures r <= s
    ensures |r| < |s| ==> s[|r|] == Pad
  {
    match IndexOf(s, Pad)
    case None => s
    case Some(k) => s[..k]
  }

  /** The sextet values of the alphabet characters of `p`, in order; other characters are skipped. */
  function Values(p: string): seq<sextet>
  {
    if |p| == 0 then []
    else
      Values(p[..|p| - 1]) + ValueSeq(p[|p| - 1])
  }

  /** The contribution of one character: its sextet, or nothing. */
  function ValueSeq(c: char): seq<sextet>
  {
    match ValueOf(c)
    case None => []
    case Some(k) => [k]
  }

  /** `char_array_3` computed from `char_array_4 = [a, b, c, d]` (lines 155-157). */
  function Triple(a: sextet, b: sextet, c: sextet, d: sextet): seq<byte>
  {
    [a * 4 + b / 16, (b % 16) * 16 + c / 4, (c % 4) * 64 + d]
  }

  /** The final partial group of one to three sextets, zero-filled, yields one byte
      fewer than it has sextets (lines 165-174). */
  function DecodeTail(t: seq<sextet>): (r: seq<byte>)
    requires |t| < 4
    ensures |r| == if |t| == 0 then 0 else |t| - 1
  {
    if |t| == 0 then []
    else if |t| == 1 then []
    else if |t| == 2 then Triple(t[0], t[1], 0, 0)[..1]
    else Triple(t[0], t[1], t[2], 0)[..2]
  }

  /** The bytes of a sequence of sextets: complete groups of four from the front,
      then the partial group. */
  function DecodeSextets(v: seq<sextet>): seq<byte>
    decreases |v|
  {
    if |v| < 4 then DecodeTail(v) else Triple(v[0], v[1], v[2], v[3]) + DecodeSextets(v[4..])
  }

  /** What `base64_decode` returns for `s`. */
  function DecodeSpec(s: string): seq<byte>
  {
    DecodeSextets(Values(BeforePad(s)))
  }

  // ---------------------------------------------------------------------------
  // Properties
  // ---------------------------------------------------------------------------

  /** Four sextets for each complete group, one more than the leftover bytes for a partial one. */
  lemma {:induction false} SextetsLength(s: seq<byte>)
    ensures |Sextets(s)| == 4 * (|s| / 3) + (if |s| % 3 == 0 then 0 else |s| % 3 + 1)
    decreases |s|
  {
    if |s| >= 3 {
      SextetsLength(s[3..]);
    }
  }

  /** Output of the encoder: `4 * ceil(n / 3)` characters, alphabet symbols followed by
      `(3 - n % 3) % 3` padding characters. */
  lemma EncodeShape(s: seq<byte>)
    ensures |EncodeSpec(s)| == 4 * ((|s| + 2) / 3)
    ensures var r, p := EncodeSpec(s), PadCount(|s|);
      (forall i :: 0 <= i < |r| - p ==> r[i] in Alphabet) &&
      (forall i :: |r| - p <= i < |r| ==> r[i] == Pad)
  {
    EncodeLength(s);
    var r, v := EncodeSpec(s), Sextets(s);
    SymbolsInAlphabet(v);
    assert r == Symbols(v) + Pads(PadCount(|s|));
  }

  lemma EncodeLength(s: seq<byte>)
    ensures |EncodeSpec(s)| == 4 * ((|s| + 2) / 3)
  {
    SextetsLength(s);
    var n := |s|;
    var q, r := n / 3, n % 3;
    assert |EncodeSpec(s)| == |Sextets(s)| + PadCount(n);
    assert n + 2 == 3 * q + (r + 2);
    assert (n + 2) / 3 == if r == 0 then q else q + 1;
  }

  /** One group: decoding the four sextets of three bytes gives the three bytes back. */
  lemma QuadTriple(a: byte, b: byte, c: byte)
    ensures var q := Quad(a, b, c); Triple(q[0], q[1], q[2], q[3]) == [a, b, c]
  {
  }

  lemma DecodeEncodeTail(t: seq<byte>)
    requires |t| < 3
    ensures DecodeTail(TailSextets(t)) == t
  {
    if |t| == 1 {
      QuadTriple(t[0], 0, 0);
    } else if |t| == 2 {
      QuadTriple(t[0], t[1], 0);
    }
  }

  lemma {:induction false} DecodeEncodeSextets(s: seq<byte>)
    ensures DecodeSextets(Sextets(s)) == s
    decreases |s|
  {
    if |s| < 3 {
      DecodeEncodeTail(s);
    } else {
      var q, rest := Quad(s[0], s[1], s[2]), Sextets(s[3..]);
      var v := q + rest;
      assert v[4..] == rest;
      DecodeEncodeSextets(s[3..]);
      QuadTriple(s[0], s[1], s[2]);
      assert s == [s[0], s[1], s[2]] + s[3..];
    }
  }

  lemma {:induction false} ValuesOfSymbols(v: seq<sextet>)
    ensures Values(Symbols(v)) == v
  {
    if |v| > 0 {
      var p, init, last := Symbols(v), v[..|v| - 1], v[|v| - 1];
      assert p == Symbols(init) + [Alphabet[last]];
      assert p[..|p| - 1] == Symbols(init);
      ValuesOfSymbols(init);
      FindSymbol(last);
      assert ValueSeq(p[|p| - 1]) == [last];
      assert Values(p) == init + [last];
      assert v == init + [last];
    }
  }

  lemma BeforePadOfEncoding(v: seq<sextet>, k: nat)
    ensures BeforePad(Symbols(v) + Pads(k)) == Symbols(v)
  {
    PadNotSymbol();
    SymbolsInAlphabet(v);
    var s := Symbols(v) + Pads(k);
    assert forall i :: 0 <= i < |v| ==> s[i] == Symbols(v)[i];
    if k == 0 {
      assert s == Symbols(v);
      assert Pad !in s;
    } else {
      assert s[|v|] == Pad;
      assert IndexOf(s, Pad) == Some(|v|);
    }
  }

  /** `base64_decode(base64_encode(x)) == x` for every byte sequence, of every length. */
  lemma RoundTrip(x: seq<byte>)
    ensures DecodeSpec(EncodeSpec(x)) == x
  {
    BeforePadOfEncoding(Sextets(x), PadCount(|x|));
    ValuesOfSymbols(Sextets(x));
    DecodeEncodeSextets(x);
  }

  /** Three bytes for each complete group of four sextets, one fewer than the leftover
      sextets for a partial one. */
  lemma {:induction false} DecodeSextetsLength(v: seq<sextet>)
    ensures |DecodeSextets(v)| == 3 * (|v| / 4) + (if |v| % 4 == 0 then 0 else |v| % 4 - 1)
    decreases |v|
  {
    if |v| >= 4 {
      DecodeSextetsLength(v[4..]);
    }
  }

  /** With `k` alphabet characters before the first `=`, the decoder returns
      `3 * (k / 4) + max(0, k % 4 - 1)` bytes. */
  lemma DecodeLength(s: string)
    ensures var k := |Values(BeforePad(s))|;
      |DecodeSpec(s)| == 3 * (k / 4) + (if k % 4 == 0 then 0 else k % 4 - 1)
  {
    DecodeSextetsLength(Values(BeforePad(s)));
  }

  lemma {:induction false} ValuesAppend(a: string, b: string)
    ensures Values(a + b) == Values(a) + Values(b)
    decreases |b|
  {
    if |b| == 0 {
      assert a + b == a;
    } else {
      var b' := b[..|b| - 1];
      assert (a + b)[..|a + b| - 1] == a + b';
      ValuesAppend(a, b');
    }
  }

  /** Where the first `=` of a concatenation lies. */
  lemma BeforePadAppend(a: string, x: string)
    ensures BeforePad(a + x) == if Pad in a then BeforePad(a) else a + BeforePad(x)
  {
    if Pad in a {
      PadInFront(a, x);
    } else {
      PadBehind(a, x);
    }
  }

  lemma PadInFront(a: string, x: string)
    requires Pad in a
    ensures BeforePad(a + x) == BeforePad(a)
  {
    var s := a + x;
    var k := IndexOf(a, Pad).value;
    assert s[k] == Pad;
    assert forall j :: 0 <= j < k ==> s[j] == a[j];
    assert s[..k] == a[..k];
  }

  lemma PadBehind(a: string, x: string)
    requires Pad !in a
    ensures BeforePad(a + x) == a + BeforePad(x)
  {
    var s := a + x;
    assert forall j :: 0 <= j < |a| ==> s[j] == a[j];
    match IndexOf(x, Pad)
    case None =>
      assert forall j :: |a| <= j < |s| ==> s[j] == x[j - |a|];
    case Some(k) =>
      assert forall j :: |a| <= j < |a| + k ==> s[j] == x[j - |a|];
      assert s[|a| + k] == Pad;
      assert s[..|a| + k] == a + x[..k];
  }

  /** A character that is neither a symbol nor `=` is skipped wherever it stands. */
  lemma IgnoresForeign(a: string, c: char, b: string)
    requires c !in Alphabet && c != Pad
    ensures DecodeSpec(a + [c] + b) == DecodeSpec(a + b)
  {
    if Pad in a {
      assert a + [c] + b == a + ([c] + b);
      PadInFront(a, [c] + b);
      PadInFront(a, b);
    } else {
      ForeignBeforePad(a, c, b);
      SkipForeign(a, c, BeforePad(b));
    }
  }

  /** With no `=` before it, a character that is not `=` is read, and so is all of `a`. */
  lemma ForeignBeforePad(a: string, c: char, b: string)
    requires Pad !in a && c != Pad
    ensures BeforePad(a + [c] + b) == a + [c] + BeforePad(b)
    ensures BeforePad(a + b) == a + BeforePad(b)
  {
    assert a + [c] + b == (a + [c]) + b;
    assert Pad !in a + [c];
    PadBehind(a + [c], b);
    PadBehind(a, b);
  }

  /** A character outside the alphabet contributes no sextet. */
  lemma SkipForeign(a: string, c: char, p: string)
    requires c !in Alphabet
    ensures Values(a + [c] + p) == Values(a + p)
  {
    ValuesAppend(a + [c], p);
    ValuesAppend(a, p);
    ValuesSnoc(a, c);
    assert ValueSeq(c) == [];
    assert Values(a + [c]) == Values(a);
  }

  /** Decoding stops at the first `=`: whatever follows it is never read. */
  lemma StopsAtPad(a: string, b: string)
    requires Pad !in a
    ensures DecodeSpec(a + [Pad] + b) == DecodeSpec(a)
  {
    var s := a + [Pad] + b;
    assert s[|a|] == Pad;
    assert IndexOf(s, Pad) == Some(|a|);
    assert s[..|a|] == a;
  }

  // ---------------------------------------------------------------------------
  // The C++ routines
  // ---------------------------------------------------------------------------

  /** `base64_encode(data, len)` (lines 105-141). The statements that turn a filled
      `char_array_3` into output are the methods `EmitGroup` (lines 114-121) and
      `EmitLastGroup` (lines 125-138). */
  method Encode(data: seq<byte>) returns (ret: string)
    ensures ret == EncodeSpec(data)
  {
    ret := "";
    var i: nat := 0;
    var char_array_3 := new byte[3];
    var char_array_4 := new sextet[4];
    var k := 0;  // bytes consumed; `len` of the C++ loop is |data| - k
    ghost var done: nat := 0;
    ghost var groups: nat := 0;
    ghost var emitted: seq<sextet> := [];
    while k < |data|
      invariant EncodeState(data, k, char_array_3, i, done, groups, emitted, ret)
    {
      ret, i, done, groups, emitted := HoldByte(data, k, ret, char_array_3, char_array_4, i,
                                                done, groups, emitted);
      k := k + 1;
    }
    TailMod(|data|, i, groups);
    ghost var t := char_array_3[..i];
    assert t == data[done..];
    if i != 0 {
      ret := EmitLastGroup(ret, char_array_3, char_array_4, i);
    }
    EncodeSplit(data, done, emitted, t);
  }

  /** The encoder after `k` bytes: `done` bytes of `groups` complete groups have been
      emitted as the sextets `emitted`, and the `i` bytes after them wait in `char_array_3`. */
  ghost predicate EncodeState(data: seq<byte>, k: nat, char_array_3: array<byte>, i: nat, done: nat,
                              groups: nat, emitted: seq<sextet>, ret: string)
    reads char_array_3
  {
    char_array_3.Length == 3 &&
    done <= k <= |data| && i == k - done && i < 3 && done == 3 * groups &&
    (forall m :: 0 <= m < i ==> char_array_3[m] == data[done + m]) &&
    Sextets(data) == emitted + Sextets(data[done..]) &&
    ret == Symbols(emitted)
  }

  /** Lines 111-122: keep byte `k` in `char_array_3` and, once three are held, emit their
      four symbols and start a new group. */
  method HoldByte(data: seq<byte>, k: nat, ret: string, char_array_3: array<byte>,
                  char_array_4: array<sextet>, i: nat, ghost done: nat, ghost groups: nat,
                  ghost emitted: seq<sextet>)
    returns (ret': string, i': nat, ghost done': nat, ghost groups': nat, ghost emitted': seq<sextet>)
    requires k < |data| && char_array_4.Length == 4
    requires EncodeState(data, k, char_array_3, i, done, groups, emitted, ret)
    modifies char_array_3, char_array_4
    ensures EncodeState(data, k + 1, char_array_3, i', done', groups', emitted', ret')
  {
    char_array_3[i] := data[k];
    i' := i + 1;
    ret', done', groups', emitted' := ret, done, groups, emitted;
    if i' == 3 {
      ghost var q := Quad(data[done], data[done + 1], data[done + 2]);
      ret' := EmitGroup(ret, char_array_3, char_array_4, q);
      EncodeStep(data, done, emitted);
      emitted' := emitted + q;
      done' := k + 1;
      groups' := groups + 1;
      i' := 0;
    }
  }

  /** The group at `done` is the next four sextets of the encoding. */
  lemma EncodeStep(data: seq<byte>, done: nat, emitted: seq<sextet>)
    requires done + 3 <= |data|
    requires Sextets(data) == emitted + Sextets(data[done..])
    ensures var q := Quad(data[done], data[done + 1], data[done + 2]);
      Sextets(data) == (emitted + q) + Sextets(data[done + 3..]) &&
      Symbols(emitted + q) == Symbols(emitted) + Symbols(q)
  {
    var q := Quad(data[done], data[done + 1], data[done + 2]);
    assert data[done..][3..] == data[done + 3..];
    SymbolsAppend(emitted, q);
  }

  /** The encoding is the symbols of the complete groups, then those of the tail and its padding. */
  lemma EncodeSplit(data: seq<byte>, done: nat, emitted: seq<sextet>, t: seq<byte>)
    requires done <= |data| && t == data[done..] && |t| < 3
    requires Sextets(data) == emitted + Sextets(data[done..])
    ensures EncodeSpec(data) == Symbols(emitted) + Symbols(TailSextets(t)) + Pads(PadCount(|data|))
  {
    SymbolsAppend(emitted, TailSextets(t));
  }

  /** Lines 114-121: the four symbols of a complete group. */
  method EmitGroup(ret: string, char_array_3: array<byte>, char_array_4: array<sextet>, ghost q: seq<sextet>)
    returns (out: string)
    requires char_array_3.Length == 3 && char_array_4.Length == 4
    requires q == Quad(char_array_3[0], char_array_3[1], char_array_3[2])
    modifies char_array_4
    ensures out == ret + Symbols(q)
  {
    char_array_4[0] := char_array_3[0] / 4;
    char_array_4[1] := (char_array_3[0] % 4) * 16 + char_array_3[1] / 16;
    char_array_4[2] := (char_array_3[1] % 16) * 4 + char_array_3[2] / 64;
    char_array_4[3] := char_array_3[2] % 64;
    assert char_array_4[..4] == q;
    out := EmitSymbols(ret, char_array_4, 4);
  }

  /** The loops of lines 119-120 and 133-134: the symbols of the first `count` sextets. */
  method EmitSymbols(ret: string, char_array_4: array<sextet>, count: nat) returns (out: string)
    requires count <= char_array_4.Length
    ensures out == ret + Symbols(char_array_4[..count])
  {
    out := ret;
    var j := 0;
    while j < count
      invariant 0 <= j <= count
      invariant out == ret + Symbols(char_array_4[..j])
    {
      assert char_array_4[..j + 1][..j] == char_array_4[..j];
      out := out + [Alphabet[char_array_4[j]]];
      j := j + 1;
    }
  }

  /** Lines 125-138: zero-fill the partial group of `i` bytes, emit `i + 1` symbols and
      pad to four characters with `=`. */
  method EmitLastGroup(ret: string, char_array_3: array<byte>, char_array_4: array<sextet>, i: nat)
    returns (out: string)
    requires char_array_3.Length == 3 && char_array_4.Length == 4
    requires 1 <= i < 3
    modifies char_array_3, char_array_4
    ensures out == ret + Symbols(TailSextets(old(char_array_3[..i]))) + Pads(3 - i)
  {
    ghost var t := char_array_3[..i];
    ZeroFill(char_array_3, i);
    char_array_4[0] := char_array_3[0] / 4;
    char_array_4[1] := (char_array_3[0] % 4) * 16 + char_array_3[1] / 16;
    char_array_4[2] := (char_array_3[1] % 16) * 4 + char_array_3[2] / 64;
    assert char_array_4[..i + 1] == TailSextets(t);
    out := EmitSymbols(ret, char_array_4, i + 1);
    ghost var symbols := out;
    var n := i;
    while n < 3
      invariant i <= n <= 3
      invariant out == symbols + Pads(n - i)
    {
      n := n + 1;
      out := out + [Pad];
    }
  }

  /** Lines 126-127: the bytes of `char_array_3` from `i` on become zero. */
  method ZeroFill(char_array_3: array<byte>, i: nat)
    requires i <= char_array_3.Length
    modifies char_array_3
    ensures char_array_3[..] == old(char_array_3[..i]) + Zeros(char_array_3.Length - i)
  {
    ghost var t := char_array_3[..i];
    var j := i;
    while j < char_array_3.Length
      invariant i <= j <= char_array_3.Length
      invariant char_array_3[..j] == t + Zeros(j - i)
    {
      char_array_3[j] := 0;
      j := j + 1;
    }
  }

  function Zeros(k: nat): (r: seq<byte>)
    ensures |r| == k && forall i :: 0 <= i < k ==> r[i] == 0
  {
    if k == 0 then [] else Zeros(k - 1) + [0]
  }

  lemma TailMod(n: nat, i: nat, m: nat)
    requires i < 3 && n == 3 * m + i
    ensures PadCount(n) == if i == 0 then 0 else 3 - i
  {
  }

  /** `base64_decode(encoded)` (lines 143-177). The statements that turn a filled
      `char_array_4` into bytes are the methods `EmitTriple` (lines 155-161) and
      `EmitLastBytes` (lines 165-174). */
  method Decode(encoded: string) returns (ret: seq<byte>)
    ensures ret == DecodeSpec(encoded)
  {
    ret := [];
    var i := 0;
    var char_array_4 := new sextet[4];
    var char_array_3 := new byte[3];
    var n := 0;  // characters read
    ghost var grouped: seq<sextet> := [];  // the sextets of the groups already decoded
    ghost var groups := 0;  // how many
    ghost var pending: seq<sextet> := [];  // the sextets held in `char_array_4`
    while n < |encoded|
      invariant 0 <= n <= |BeforePad(encoded)|
      invariant 0 <= i < 4 && |grouped| == 4 * groups
      invariant char_array_4[..i] == pending
      invariant Values(encoded[..n]) == grouped + pending
      invariant ret == DecodeSextets(grouped)
    {
      var c := encoded[n];
      if c == Pad {
        break;
      }
      ReadStep(encoded, n, grouped, pending);
      n := n + 1;
      var pos := IndexOf(Alphabet, c);
      if pos.None? {
        continue;
      }
      AlphabetAt(0);
      assert ValueSeq(c) == [pos.value];
      ret, i, grouped, pending, groups := HoldSextet(ret, char_array_4, char_array_3, i, pos.value,
                                                     grouped, pending, groups);
    }
    FinishRead(encoded, n);
    if i != 0 {
      ret := EmitLastBytes(ret, char_array_4, char_array_3, i);
    }
    DecodeAppend(grouped, pending, groups);
  }

  /** Reading one more character that is not `=`. */
  lemma ReadStep(encoded: string, n: nat, grouped: seq<sextet>, pending: seq<sextet>)
    requires n < |encoded| && encoded[n] != Pad
    requires n <= |BeforePad(encoded)| && Values(encoded[..n]) == grouped + pending
    ensures n + 1 <= |BeforePad(encoded)|
    ensures Values(encoded[..n + 1]) == grouped + (pending + ValueSeq(encoded[n]))
  {
    assert encoded[..n + 1] == encoded[..n] + [encoded[n]];
    ValuesSnoc(encoded[..n], encoded[n]);
  }

  /** The loop ends at the first `=` or at the end: it has read exactly `BeforePad`. */
  lemma FinishRead(encoded: string, n: nat)
    requires n <= |BeforePad(encoded)|
    requires n < |encoded| ==> encoded[n] == Pad
    ensures encoded[..n] == BeforePad(encoded)
  {
    var r := BeforePad(encoded);
    assert forall j :: 0 <= j < |r| ==> r[j] == encoded[j];
  }

  /** Decoding complete groups and what follows them separately. */
  lemma {:induction false} DecodeAppend(g: seq<sextet>, p: seq<sextet>, m: nat)
    requires |g| == 4 * m
    ensures DecodeSextets(g + p) == DecodeSextets(g) + DecodeSextets(p)
    decreases |g|
  {
    if |g| == 0 {
      assert g + p == p;
    } else {
      assert (g + p)[4..] == g[4..] + p;
      DecodeAppend(g[4..], p, m - 1);
    }
  }

  /** One more complete group decodes to its three bytes. */
  lemma DecodeGroup(g: seq<sextet>, q: seq<sextet>, m: nat)
    requires |g| == 4 * m && |q| == 4
    ensures DecodeSextets(g + q) == DecodeSextets(g) + Triple(q[0], q[1], q[2], q[3])
  {
    DecodeAppend(g, q, m);
    assert q[4..] == [];
  }

  lemma ValuesSnoc(p: string, c: char)
    ensures Values(p + [c]) == Values(p) + ValueSeq(c)
  {
    assert (p + [c])[..|p|] == p;
  }

  /** Lines 150-162: keep the sextet `v` in `char_array_4` and, once four are held, emit
      their three bytes and start a new group. */
  method HoldSextet(ret: seq<byte>, char_array_4: array<sextet>, char_array_3: array<byte>, i: nat,
                    v: sextet, ghost grouped: seq<sextet>, ghost pending: seq<sextet>, ghost groups: nat)
    returns (ret': seq<byte>, i': nat, ghost grouped': seq<sextet>, ghost pending': seq<sextet>,
             ghost groups': nat)
    requires char_array_3.Length == 3 && char_array_4.Length == 4
    requires i < 4 && |grouped| == 4 * groups && char_array_4[..i] == pending
    requires ret == DecodeSextets(grouped)
    modifies char_array_3, char_array_4
    ensures i' < 4 && |grouped'| == 4 * groups' && char_array_4[..i'] == pending'
    ensures grouped' + pending' == grouped + (pending + [v])
    ensures ret' == DecodeSextets(grouped')
  {
    char_array_4[i] := v;
    assert char_array_4[..i + 1] == pending + [v];
    i' := i + 1;
    pending' := pending + [v];
    grouped', groups', ret' := grouped, groups, ret;
    if i' == 4 {
      ret' := EmitTriple(ret, char_array_4, char_array_3);
      DecodeGroup(grouped, pending', groups);
      grouped' := grouped + pending';
      groups' := groups + 1;
      pending' := [];
      i' := 0;
    }
  }

  /** Lines 155-161: the three bytes of a complete group. */
  method EmitTriple(ret: seq<byte>, char_array_4: array<sextet>, char_array_3: array<byte>)
    returns (out: seq<byte>)
    requires char_array_3.Length == 3 && char_array_4.Length == 4
    modifies char_array_3
    ensures out == ret + Triple(char_array_4[0], char_array_4[1], char_array_4[2], char_array_4[3])
  {
    char_array_3[0] := char_array_4[0] as int * 4 + char_array_4[1] / 16;
    char_array_3[1] := (char_array_4[1] % 16) as int * 16 + char_array_4[2] / 4;
    char_array_3[2] := (char_array_4[2] % 4) as int * 64 + char_array_4[3];
    ghost var bytes := Triple(char_array_4[0], char_array_4[1], char_array_4[2], char_array_4[3]);
    assert char_array_3[..] == bytes;
    out := ret;
    var i := 0;
    while i < 3
      invariant 0 <= i <= 3
      invariant out == ret + bytes[..i]
    {
      out := out + [char_array_3[i]];
      i := i + 1;
    }
  }

  /** Lines 165-174: zero-fill the partial group of `i` sextets and emit `i - 1` bytes. */
  method EmitLastBytes(ret: seq<byte>, char_array_4: array<sextet>, char_array_3: array<byte>, i: nat)
    returns (out: seq<byte>)
    requires char_array_3.Length == 3 && char_array_4.Length == 4
    requires 1 <= i < 4
    modifies char_array_3, char_array_4
    ensures out == ret + DecodeTail(old(char_array_4[..i]))
  {
    ghost var t := old(char_array_4[..i]);
    var j := i;
    while j < 4
      invariant i <= j <= 4
      invariant char_array_4[..j] == t + SextetZeros(j - i)
    {
      char_array_4[j] := 0;
      j := j + 1;
    }
    char_array_3[0] := char_array_4[0] as int * 4 + char_array_4[1] / 16;
    char_array_3[1] := (char_array_4[1] % 16) as int * 16 + char_array_4[2] / 4;
    ghost var bytes := DecodeTail(t);
    assert char_array_3[..i - 1] == bytes;
    out := ret;
    j := 0;
    while j < i - 1
      invariant 0 <= j <= i - 1
      invariant out == ret + bytes[..j]
    {
      out := out + [char_array_3[j]];
      j := j + 1;
    }
  }

  function SextetZeros(k: nat): (r: seq<sextet>)
    ensures |r| == k && forall i :: 0 <= i < k ==> r[i] == 0
  {
    if k == 0 then [] else SextetZeros(k - 1) + [0]
  }
}
