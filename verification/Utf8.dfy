// Truncating a text to a number of bytes without cutting a character in two.
//
// The encoding is that of section 3 of RFC 3629.
module Utf8 {
  import opened Prelude
  import opened Bytes

  // A Unicode character: a number up to 0x10FFFF that is not a surrogate.
  type Character = c: nat | c <= 0x10FFFF && !(0xD800 <= c <= 0xDFFF)

  // ---------- The encoding ----------

  function EncodeChar(c: Character): (b: Bytes)
    ensures 1 <= |b| <= 4
    ensures !IsContinuation(b[0]) && forall i :: 1 <= i < |b| ==> IsContinuation(b[i])
  {
    if c < 0x80 then [c]
    else if c < 0x800 then [0xC0 + c / 0x40, Continuation(c)]
    else if c < 0x1_0000 then [0xE0 + c / 0x1000, Continuation(c / 0x40), Continuation(c)]
    else [0xF0 + c / 0x4_0000, Continuation(c / 0x1000), Continuation(c / 0x40), Continuation(c)]
  }

  // The lowest six bits behind the mark of a following byte.
  function Continuation(n: nat): (b: u8)
    ensures IsContinuation(b)
  {
    0x80 + n % 0x40
  }

  predicate IsContinuation(b: u8) {
    0x80 <= b < 0xC0
  }

  function Encode(chars: seq<Character>): Bytes {
    if |chars| == 0 then [] else Encode(chars[..|chars| - 1]) + EncodeChar(chars[|chars| - 1])
  }

  // Where the k-th character begins.
  function Start(chars: seq<Character>, k: nat): nat
    requires k <= |chars|
  {
    |Encode(chars[..k])|
  }

  // ---------- Characters and bytes ----------

  lemma OneMoreCharacter(chars: seq<Character>, k: nat)
    requires k < |chars|
    ensures Encode(chars[..k + 1]) == Encode(chars[..k]) + EncodeChar(chars[k])
  {
    assert chars[..k + 1][..k] == chars[..k];
  }

  lemma {:induction false} PrefixesEncodeToPrefixes(chars: seq<Character>, k: nat)
    requires k <= |chars|
    ensures Start(chars, k) <= |Encode(chars)| && Encode(chars)[..Start(chars, k)] == Encode(chars[..k])
    decreases |chars| - k
  {
    if k == |chars| {
      assert chars[..k] == chars;
    } else {
      OneMoreCharacter(chars, k);
      PrefixesEncodeToPrefixes(chars, k + 1);
      assert Encode(chars)[..Start(chars, k)] == Encode(chars)[..Start(chars, k + 1)][..Start(chars, k)];
    }
  }

  // Within a character only its first byte is not a following byte.
  lemma BytesOfACharacter(chars: seq<Character>, k: nat, i: nat)
    requires k < |chars| && Start(chars, k) <= i < Start(chars, k + 1)
    ensures i < |Encode(chars)| && (IsContinuation(Encode(chars)[i]) <==> i != Start(chars, k))
  {
    OneMoreCharacter(chars, k);
    PrefixesEncodeToPrefixes(chars, k + 1);
    assert Encode(chars)[i] == Encode(chars[..k + 1])[i] == EncodeChar(chars[k])[i - Start(chars, k)];
  }

  // The character a position falls into.
  lemma {:induction false} CharacterAt(chars: seq<Character>, position: nat, n: nat) returns (k: nat)
    requires n <= |chars| && position < Start(chars, n)
    ensures k < n && Start(chars, k) <= position < Start(chars, k + 1)
  {
    if position < Start(chars, n - 1) {
      k := CharacterAt(chars, position, n - 1);
    } else {
      k := n - 1;
    }
  }

  lemma {:induction false} StartsIncrease(chars: seq<Character>, k: nat, m: nat)
    requires k <= m <= |chars|
    ensures Start(chars, k) <= Start(chars, m)
  {
    if k == m {
    } else {
      StartsIncrease(chars, k, m - 1);
      OneMoreCharacter(chars, m - 1);
    }
  }

  // ---------- The truncation ----------

  // The first k characters fit, and no more of them do.
  ghost predicate LongestFitting(chars: seq<Character>, k: nat, maxBytes: nat) {
    && k <= |chars| && Start(chars, k) <= maxBytes
    && forall m :: k < m <= |chars| ==> Start(chars, m) > maxBytes
  }

  class Text {
    var bytes: Bytes

    constructor (b: Bytes)
      ensures bytes == b
    {
      bytes := b;
    }

    predicate IsCharBoundary(i: nat)
      reads this
    {
      i == 0 || i == |bytes| || (i < |bytes| && !IsContinuation(bytes[i]))
    }

    /** Leaves the encoding of the longest run of whole leading characters that fits, after at most three steps back. */
    method TruncateUtf8(maxBytes: nat, ghost chars: seq<Character>) returns (ghost k: nat, ghost steps: nat)
      requires bytes == Encode(chars)
      modifies this
      ensures LongestFitting(chars, k, maxBytes) && bytes == Encode(chars[..k])
      ensures steps <= 3 && (|old(bytes)| > maxBytes ==> |bytes| == maxBytes - steps)
    {
      steps := 0;
      if |bytes| <= maxBytes {
        k := |chars|;
        assert chars[..k] == chars;
        return;
      }
      var cut := maxBytes;
      assert chars[..|chars|] == chars;
      k := CharacterAt(chars, maxBytes, |chars|);
      OneMoreCharacter(chars, k);
      BytesOfCharacter(chars, k);
      ghost var start, end := Start(chars, k), Start(chars, k + 1);
      while !IsCharBoundary(cut)
        invariant start <= cut <= maxBytes < end && bytes == Encode(chars)
        invariant steps == maxBytes - cut
        decreases cut
      {
        cut := cut - 1;
        steps := steps + 1;
      }
      PrefixesEncodeToPrefixes(chars, k);
      bytes := bytes[..cut];
      LaterCharactersDoNotFit(chars, k, maxBytes);
    }
  }

  lemma BytesOfCharacter(chars: seq<Character>, k: nat)
    requires k < |chars|
    ensures Start(chars, k + 1) <= |Encode(chars)|
    ensures forall i :: Start(chars, k) <= i < Start(chars, k + 1) ==>
      (IsContinuation(Encode(chars)[i]) <==> i != Start(chars, k))
  {
    PrefixesEncodeToPrefixes(chars, k + 1);
    forall i | Start(chars, k) <= i < Start(chars, k + 1)
      ensures IsContinuation(Encode(chars)[i]) <==> i != Start(chars, k)
    {
      BytesOfACharacter(chars, k, i);
    }
  }

  lemma LaterCharactersDoNotFit(chars: seq<Character>, k: nat, maxBytes: nat)
    requires k < |chars| && Start(chars, k) <= maxBytes < Start(chars, k + 1)
    ensures LongestFitting(chars, k, maxBytes)
  {
    forall m | k < m <= |chars|
      ensures Start(chars, m) > maxBytes
    {
      StartsIncrease(chars, k + 1, m);
    }
  }

  /** The characters kept are determined by the text and the limit. */
  lemma LongestFittingIsUnique(chars: seq<Character>, k: nat, m: nat, maxBytes: nat)
    requires LongestFitting(chars, k, maxBytes) && LongestFitting(chars, m, maxBytes)
    ensures k == m
  {}
}
