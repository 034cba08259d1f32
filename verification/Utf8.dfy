/** Copying a prefix of a UTF-8 string (source/player/ui/utf8.c), against the
    grammar of section 4 of RFC 3629. */
module Utf8 {
  import opened Options

  type Byte = b: nat | b < 256

  // ------------------------------------------------------------- the grammar

  predicate Tail(b: Byte) {
    0x80 <= b <= 0xBF
  }

  /** One UTF8-char. */
  predicate Char(s: seq<Byte>) {
    match |s|
    case 1 => s[0] <= 0x7F
    case 2 => 0xC2 <= s[0] <= 0xDF && Tail(s[1])
    case 3 =>
      Tail(s[2]) &&
      ((s[0] == 0xE0 && 0xA0 <= s[1] <= 0xBF)
       || (0xE1 <= s[0] <= 0xEC && Tail(s[1]))
       || (s[0] == 0xED && 0x80 <= s[1] <= 0x9F)
       || (0xEE <= s[0] <= 0xEF && Tail(s[1])))
    case 4 =>
      Tail(s[2]) && Tail(s[3]) &&
      ((s[0] == 0xF0 && 0x90 <= s[1] <= 0xBF)
       || (0xF1 <= s[0] <= 0xF3 && Tail(s[1]))
       || (s[0] == 0xF4 && 0x80 <= s[1] <= 0x8F))
    case _ => false
  }

  /** UTF8-octets: any number of characters. */
  ghost predicate Octets(s: seq<Byte>)
    decreases |s|
  {
    s == [] || exists n: nat :: 1 <= n <= |s| && Starts(s, n) && Octets(s[n..])
  }

  predicate Starts(s: seq<Byte>, n: nat) {
    n <= |s| && Char(s[..n])
  }

  /** A character is no beginning of another. */
  lemma OneStart(s: seq<Byte>, n: nat, m: nat)
    requires Starts(s, n) && Starts(s, m)
    ensures n == m
  {
    assert s[..n][0] == s[0] && s[..m][0] == s[0];
  }

  lemma FirstChar(s: seq<Byte>) returns (n: nat)
    requires Octets(s) && s != []
    ensures 1 <= n <= |s| && Starts(s, n) && Octets(s[n..])
  {
    n :| 1 <= n <= |s| && Starts(s, n) && Octets(s[n..]);
  }

  lemma OctetsFrom(s: seq<Byte>, n: nat)
    requires 1 <= n <= |s| && Starts(s, n) && Octets(s[n..])
    ensures Octets(s)
  {}

  lemma {:induction false} OctetsSnoc(a: seq<Byte>, c: seq<Byte>)
    requires Octets(a) && Char(c)
    ensures Octets(a + c)
    decreases |a|
  {
    assert |c| >= 1 && Octets([]);
    hide Char, Octets;
    if a == [] {
      assert a + c == c && c[..|c|] == c && c[|c|..] == [];
      OctetsFrom(c, |c|);
    } else {
      var n := FirstChar(a);
      OctetsSnoc(a[n..], c);
      assert (a + c)[..n] == a[..n] && (a + c)[n..] == a[n..] + c;
      OctetsFrom(a + c, n);
    }
  }

  /** The rest of a well-formed string after a well-formed beginning. */
  lemma {:induction false} OctetsRest(a: seq<Byte>, b: seq<Byte>)
    requires Octets(a) && Octets(a + b)
    ensures Octets(b)
    decreases |a|
  {
    hide Char, Octets;
    if a == [] {
      assert a + b == b;
    } else {
      var n := FirstChar(a);
      var m := FirstChar(a + b);
      assert (a + b)[..n] == a[..n];
      OneStart(a + b, n, m);
      assert (a + b)[n..] == a[n..] + b;
      OctetsRest(a[n..], b);
    }
  }

  // --------------------------------------------------------------- one sequence

  /** The code point that the bytes spell; shifts by six bits are products with
      64, and masks are remainders. */
  function CodePoint(s: seq<Byte>, leadBits: nat): nat
    requires s != [] && leadBits > 0
  {
    if |s| == 1 then s[0] % leadBits else CodePoint(s[..|s| - 1], leadBits) * 64 + s[|s| - 1] % 64
  }

  lemma CodePointOf(s: seq<Byte>, leadBits: nat)
    requires 1 <= |s| <= 4 && leadBits > 0
    ensures CodePoint(s, leadBits) ==
      if |s| == 1 then s[0] % leadBits
      else if |s| == 2 then (s[0] % leadBits) * 64 + s[1] % 64
      else if |s| == 3 then ((s[0] % leadBits) * 64 + s[1] % 64) * 64 + s[2] % 64
      else (((s[0] % leadBits) * 64 + s[1] % 64) * 64 + s[2] % 64) * 64 + s[3] % 64
  {
    if |s| > 1 { CodePointOf(s[..|s| - 1], leadBits); }
  }

  predicate Rejected(codepoint: nat, length: nat) {
    || (length == 3 && codepoint < 0x800) || (length == 4 && codepoint < 0x10000)
    || 0xD800 <= codepoint <= 0xDFFF || codepoint > 0x10FFFF
  }

  /** How many bytes the lead byte announces, and how many values its bits have. */
  function Announced(lead: Byte): (nat, nat) {
    if lead < 0x80 then (1, 256)
    else if 0xC2 <= lead <= 0xDF then (2, 32)
    else if 0xE0 <= lead <= 0xEF then (3, 16)
    else if 0xF0 <= lead <= 0xF4 then (4, 8)
    else (0, 1)
  }

  ghost predicate Tails(s: seq<Byte>) {
    forall i :: 1 <= i < |s| ==> Tail(s[i])
  }

  lemma TwoBytes(a: Byte, b: Byte)
    requires 0xC2 <= a <= 0xDF && Tail(b)
    ensures !Rejected((a % 32) * 64 + b % 64, 2)
  {}

  lemma ThreeBytes(a: Byte, b: Byte, c: Byte)
    requires 0xE0 <= a <= 0xEF && Tail(b) && Tail(c)
    ensures Rejected(((a % 16) * 64 + b % 64) * 64 + c % 64, 3) <==> (a == 0xE0 && b < 0xA0) || (a == 0xED && b > 0x9F)
  {
    assert a % 16 == a - 0xE0 && b % 64 == b - 0x80 && c % 64 == c - 0x80;
  }

  lemma FourBytes(a: Byte, b: Byte, c: Byte, d: Byte)
    requires 0xF0 <= a <= 0xF4 && Tail(b) && Tail(c) && Tail(d)
    ensures Rejected((((a % 8) * 64 + b % 64) * 64 + c % 64) * 64 + d % 64, 4)
      <==> (a == 0xF0 && b < 0x90) || (a == 0xF4 && b > 0x8F)
  {
    assert a % 8 == a - 0xF0 && b % 64 == b - 0x80 && c % 64 == c - 0x80 && d % 64 == d - 0x80;
  }

  /** The checks on the code point cut the announced sequences down to the
      grammar. */
  lemma ChecksAreGrammar(s: seq<Byte>)
    requires s != [] && |s| == Announced(s[0]).0 > 1
    ensures Char(s) <==> Tails(s) && !Rejected(CodePoint(s, Announced(s[0]).1), |s|)
  {
    CodePointOf(s, Announced(s[0]).1);
    hide CodePoint, Rejected;
    if Tails(s) {
      assert Tail(s[1]) && (|s| > 2 ==> Tail(s[2])) && (|s| > 3 ==> Tail(s[3]));
      if |s| == 2 {
        TwoBytes(s[0], s[1]);
      } else if |s| == 3 {
        ThreeBytes(s[0], s[1], s[2]);
      } else {
        FourBytes(s[0], s[1], s[2], s[3]);
      }
    }
  }

  /** utf8_sequence_length of what follows in the input; 0 for no character. */
  method SequenceLength(input: seq<Byte>, offset: nat) returns (length: nat)
    requires offset < |input|
    ensures length == 0 || Starts(input[offset..], length)
    ensures length == 0 ==> forall n :: 0 < n ==> !Starts(input[offset..], n)
  {
    ghost var rest := input[offset..];
    var available := |input| - offset;
    var lead := input[offset];
    AnnouncedOrNothing(rest);
    if lead < 0x80 {
      assert rest[..1] == [lead];
      return 1;
    }
    var leadBits := Announced(lead).1;
    length := Announced(lead).0;
    if length == 0 || available < length {
      return 0;
    }
    ghost var s := rest[..length];
    ChecksAreGrammar(s);
    var codepoint: nat := lead % leadBits;
    var index := 1;
    while index < length
      invariant 1 <= index <= length
      invariant codepoint == CodePoint(s[..index], leadBits)
      invariant forall i :: 1 <= i < index ==> Tail(s[i])
    {
      var b := input[offset + index];
      assert b == s[index];
      if b / 64 != 2 {
        return 0;
      }
      assert s[..index + 1][..index] == s[..index];
      codepoint := codepoint * 64 + b % 64;
      index := index + 1;
    }
    assert s[..length] == s;
    if Rejected(codepoint, length) {
      return 0;
    }
  }

  /** A character has the length its lead byte announces. */
  lemma AnnouncedOrNothing(s: seq<Byte>)
    requires s != []
    ensures forall n :: 0 < n && Starts(s, n) ==> n == Announced(s[0]).0
  {
    forall n | 0 < n && Starts(s, n) ensures n == Announced(s[0]).0 {
      assert s[..n][0] == s[0];
    }
  }

  // ----------------------------------------------------------------- the prefix

  /** The longest well-formed prefix within the bound. */
  ghost predicate LongestPrefix(input: seq<Byte>, bound: nat, k: nat) {
    && k <= bound && k <= |input| && Octets(input[..k])
    && forall m :: k < m <= bound && m <= |input| ==> !Octets(input[..m])
  }

  /** A longer well-formed prefix goes on with a character. */
  lemma LongerHasNext(input: seq<Byte>, k: nat, m: nat)
    requires k < m <= |input| && Octets(input[..k]) && Octets(input[..m])
    ensures exists n: nat :: 0 < n <= m - k && Starts(input[k..], n)
  {
    var rest := input[k..m];
    assert input[..m] == input[..k] + rest;
    OctetsRest(input[..k], rest);
    var n := FirstChar(rest);
    hide Octets, Char;
    assert rest[..n] == input[k..][..n];
    assert Starts(input[k..], n);
  }

  /** Where the loop stops, no longer prefix will do. */
  lemma StopsAtLongest(input: seq<Byte>, bound: nat, k: nat)
    requires k <= bound && k <= |input| && Octets(input[..k])
    requires forall n :: 0 < n && Starts(input[k..], n) ==> k + n > bound
    ensures LongestPrefix(input, bound, k)
  {
    hide Octets, Starts;
    forall m | k < m <= bound && m <= |input| ensures !Octets(input[..m]) {
      if Octets(input[..m]) { LongerHasNext(input, k, m); }
    }
  }

  /** memcpy. */
  method CopyBytes(output: array<Byte>, at: nat, bytes: seq<Byte>)
    requires at + |bytes| <= output.Length
    modifies output
    ensures output[..at + |bytes|] == old(output[..at]) + bytes
    ensures forall j :: at + |bytes| <= j < output.Length ==> output[j] == old(output[j])
  {
    forall i | 0 <= i < |bytes| {
      output[at + i] := bytes[i];
    }
  }

  /** player_utf8_copy_prefix. A C string has no zero byte; null pointers are null
      and None. */
  method CopyPrefix(output: array?<Byte>, outputSize: nat, input: Option<seq<Byte>>, limit: nat)
    returns (copied: nat)
    requires output != null ==> outputSize <= output.Length
    requires input.Some? ==> 0 !in input.value
    modifies if output == null then {} else {output}
    ensures output == null || outputSize == 0 || input == None ==> copied == 0
    ensures output != null && outputSize > 0 && input.Some? ==>
      && LongestPrefix(input.value, if limit < outputSize - 1 then limit else outputSize - 1, copied)
      && output[..copied] == input.value[..copied]
    ensures output != null && outputSize > 0 ==>
      && copied < outputSize && output[copied] == 0
      && forall j :: copied < j < output.Length ==> output[j] == old(output[j])
    ensures output != null && outputSize == 0 ==> output[..] == old(output[..])
  {
    assert Octets([]);
    hide *;
    copied := 0;
    if output == null || outputSize == 0 {
      return;
    }
    output[0] := 0;
    if input == None {
      return;
    }
    var text := input.value;
    ghost var bound := if limit < outputSize - 1 then limit else outputSize - 1;
    var offset := 0;
    while offset < |text| && offset < limit
      invariant offset == copied <= bound && copied <= |text|
      invariant Octets(text[..copied]) && output[..copied] == text[..copied]
      invariant forall j :: copied < j < output.Length ==> output[j] == old(output[j])
      decreases |text| - offset
    {
      var length := SequenceLength(text, offset);
      if length == 0 || offset + length > limit || copied + length >= outputSize {
        StopsHere(text, bound, offset, length);
        break;
      }
      var character := text[offset..offset + length];
      assert text[offset..][..length] == character;
      assert text[..offset + length] == text[..offset] + character;
      OctetsSnoc(text[..offset], character);
      CopyBytes(output, copied, character);
      offset := offset + length;
      copied := copied + length;
    }
    if offset >= |text| || offset >= limit {
      StopsAtEnd(text, bound, offset);
    }
    output[copied] := 0;
  }

  lemma StopsHere(text: seq<Byte>, bound: nat, offset: nat, length: nat)
    requires offset < |text| && offset <= bound && Octets(text[..offset])
    requires length == 0 ==> forall n :: 0 < n ==> !Starts(text[offset..], n)
    requires length > 0 ==> Starts(text[offset..], length) && offset + length > bound
    ensures LongestPrefix(text, bound, offset)
  {
    forall n | 0 < n && Starts(text[offset..], n) ensures offset + n > bound {
      if length > 0 { OneStart(text[offset..], n, length); }
    }
    StopsAtLongest(text, bound, offset);
  }

  lemma StopsAtEnd(text: seq<Byte>, bound: nat, offset: nat)
    requires offset <= bound && offset <= |text| && Octets(text[..offset])
    requires offset == |text| || offset == bound
    ensures LongestPrefix(text, bound, offset)
  {}
}
