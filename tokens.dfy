/**
 * Characters, C strings and whitespace words: what handle_entries sees when
 * it walks a record with a char pointer. One char here stands for one byte
 * of the record; a Dafny char ranges wider than a byte, and nothing below
 * depends on that.
 */
module Tokens {

  type Token = seq<char>

  const NUL: char := '\0'

  /** isspace() in the C locale: space, \t, \n, \v, \f and \r. */
  predicate IsSpace(c: char) {
    c == ' ' || c == '\t' || c == '\n' || c == '\U{B}' || c == '\U{C}' || c == '\r'
  }

  /** A C string holds no NUL before its terminator. */
  predicate NoNul(d: seq<char>) {
    forall k :: 0 <= k < |d| ==> d[k] != NUL
  }

  /** The C string a buffer holds: what precedes its first NUL. */
  function CStr(raw: seq<char>): (d: seq<char>)
    ensures NoNul(d) && d <= raw
    ensures |d| < |raw| ==> raw[|d|] == NUL
  {
    if raw == [] || raw[0] == NUL then [] else [raw[0]] + CStr(raw[1..])
  }

  /** Where `while (isspace(*s)) s++;` leaves s when it starts at i. */
  function SkipSpace(d: seq<char>, i: nat): (j: nat)
    requires i <= |d|
    ensures i <= j <= |d|
    ensures j < |d| ==> !IsSpace(d[j])
    decreases |d| - i
  {
    if i < |d| && IsSpace(d[i]) then SkipSpace(d, i + 1) else i
  }

  /** Everything SkipSpace passes over is blank. */
  lemma {:induction false} SkipSpaceBlanks(d: seq<char>, i: nat)
    requires i <= |d|
    ensures forall k :: i <= k < SkipSpace(d, i) ==> IsSpace(d[k])
    decreases |d| - i
  {
    if i < |d| && IsSpace(d[i]) {
      SkipSpaceBlanks(d, i + 1);
    }
  }

  /** The end of the word that starts at i: the next space or the terminator. */
  function WordEnd(d: seq<char>, i: nat): (e: nat)
    requires i <= |d|
    ensures i <= e <= |d|
    ensures i < |d| && !IsSpace(d[i]) ==> i < e
    ensures e < |d| ==> IsSpace(d[e])
    decreases |d| - i
  {
    if i < |d| && !IsSpace(d[i]) then WordEnd(d, i + 1) else i
  }

  /** A word holds no blank. */
  lemma {:induction false} WordEndInk(d: seq<char>, i: nat)
    requires i <= |d|
    ensures forall k :: i <= k < WordEnd(d, i) ==> !IsSpace(d[k])
    decreases |d| - i
  {
    if i < |d| && !IsSpace(d[i]) {
      WordEndInk(d, i + 1);
    }
  }

  /** The whitespace-separated words of d from position i on, in order. */
  function WordsFrom(d: seq<char>, i: nat): seq<Token>
    requires i <= |d|
    decreases |d| - i
  {
    var j := SkipSpace(d, i);
    if j == |d| then [] else [d[j..WordEnd(d, j)]] + WordsFrom(d, WordEnd(d, j))
  }

  function Words(d: seq<char>): seq<Token> {
    WordsFrom(d, 0)
  }

  /** The characters of d that are not whitespace, in order. */
  function Ink(d: seq<char>): seq<char> {
    if d == [] then [] else (if IsSpace(d[0]) then [] else [d[0]]) + Ink(d[1..])
  }

  function Concat(ts: seq<Token>): seq<char> {
    if ts == [] then [] else ts[0] + Concat(ts[1..])
  }

  lemma {:induction false} InkAppend(a: seq<char>, b: seq<char>)
    ensures Ink(a + b) == Ink(a) + Ink(b)
    decreases |a|
  {
    if a == [] {
      assert a + b == b;
    } else {
      assert (a + b)[1..] == a[1..] + b;
      InkAppend(a[1..], b);
    }
  }

  lemma {:induction false} InkOfSpaces(d: seq<char>)
    requires forall k :: 0 <= k < |d| ==> IsSpace(d[k])
    ensures Ink(d) == []
    decreases |d|
  {
    if d != [] {
      InkOfSpaces(d[1..]);
    }
  }

  lemma {:induction false} InkOfWord(d: seq<char>)
    requires forall k :: 0 <= k < |d| ==> !IsSpace(d[k])
    ensures Ink(d) == d
    decreases |d|
  {
    if d != [] {
      InkOfWord(d[1..]);
    }
  }

  /** Every word is a non-empty run of non-blank characters. */
  lemma {:induction false} WordsAreBlankFree(d: seq<char>, i: nat)
    requires i <= |d|
    ensures forall w :: w in WordsFrom(d, i) ==> w != [] && forall k :: 0 <= k < |w| ==> !IsSpace(w[k])
    decreases |d| - i
  {
    var j := SkipSpace(d, i);
    if j < |d| {
      WordEndInk(d, j);
      WordsAreBlankFree(d, WordEnd(d, j));
    }
  }

  /** Together the words spell the non-blank characters of d[i..], in order. */
  lemma {:induction false} WordsSpellInk(d: seq<char>, i: nat)
    requires i <= |d|
    ensures Concat(WordsFrom(d, i)) == Ink(d[i..])
    decreases |d| - i
  {
    var j := SkipSpace(d, i);
    assert Ink(d[i..]) == Ink(d[j..]) by {
      InkSplit(d, i, j);
      SkipSpaceBlanks(d, i);
      InkOfSpaces(d[i..j]);
    }
    if j < |d| {
      var e := WordEnd(d, j);
      calc {
        Concat(WordsFrom(d, i));
        Concat([d[j..e]] + WordsFrom(d, e));
        { assert ([d[j..e]] + WordsFrom(d, e))[1..] == WordsFrom(d, e); }
        d[j..e] + Concat(WordsFrom(d, e));
        { WordsSpellInk(d, e); }
        d[j..e] + Ink(d[e..]);
        { InkSplit(d, j, e); WordEndInk(d, j); InkOfWord(d[j..e]); }
        Ink(d[j..]);
      }
    } else {
      assert d[j..] == [];
    }
  }

  lemma InkSplit(d: seq<char>, i: nat, j: nat)
    requires i <= j <= |d|
    ensures Ink(d[i..]) == Ink(d[i..j]) + Ink(d[j..])
  {
    assert d[i..] == d[i..j] + d[j..];
    InkAppend(d[i..j], d[j..]);
  }

  /** Skipping blanks from anywhere inside a blank run lands on the same character. */
  lemma {:induction false} SkipSpaceAcross(d: seq<char>, i: nat, i2: nat)
    requires i <= i2 <= |d|
    requires forall k :: i <= k < i2 ==> IsSpace(d[k])
    ensures SkipSpace(d, i) == SkipSpace(d, i2)
    decreases i2 - i
  {
    if i < i2 {
      SkipSpaceAcross(d, i + 1, i2);
    }
  }

  /** Starting the scan inside a blank run gives the same words. */
  lemma WordsAcross(d: seq<char>, i: nat, i2: nat)
    requires i <= i2 <= |d|
    requires forall k :: i <= k < i2 ==> IsSpace(d[k])
    ensures WordsFrom(d, i) == WordsFrom(d, i2)
  {
    SkipSpaceAcross(d, i, i2);
  }

  /**
   * The words from a blank run before the word d[j..e], where the scan may
   * resume at e or, past the blank after it, at e + 1.
   */
  lemma WordsStep(d: seq<char>, i: nat, j: nat, next: nat)
    requires i <= |d| && j == SkipSpace(d, i) && j < |d|
    requires WordEnd(d, j) <= next <= |d|
    requires forall k :: WordEnd(d, j) <= k < next ==> IsSpace(d[k])
    ensures WordsFrom(d, i) == [d[j..WordEnd(d, j)]] + WordsFrom(d, next)
  {
    WordsAcross(d, WordEnd(d, j), next);
  }

  /** The scan from i gives the words from the first non-blank at or after i. */
  lemma WordsSkip(d: seq<char>, i: nat)
    requires i <= |d|
    ensures WordsFrom(d, i) == WordsFrom(d, SkipSpace(d, i))
  {
    SkipSpaceBlanks(d, i);
    WordsAcross(d, i, SkipSpace(d, i));
  }

  lemma {:induction false} SkipSpaceShift(d: seq<char>, j: nat, i: nat)
    requires j + i <= |d|
    ensures SkipSpace(d[j..], i) + j == SkipSpace(d, j + i)
    decreases |d| - j - i
  {
    if j + i < |d| && IsSpace(d[j + i]) {
      SkipSpaceShift(d, j, i + 1);
    }
  }

  lemma {:induction false} WordEndShift(d: seq<char>, j: nat, i: nat)
    requires j + i <= |d|
    ensures WordEnd(d[j..], i) + j == WordEnd(d, j + i)
    decreases |d| - j - i
  {
    if j + i < |d| && !IsSpace(d[j + i]) {
      WordEndShift(d, j, i + 1);
    }
  }

  /** Scanning the copy d[j..] (xstrdup of a leftover) gives the words of d after j. */
  lemma {:induction false} WordsShift(d: seq<char>, j: nat, i: nat)
    requires j + i <= |d|
    ensures WordsFrom(d[j..], i) == WordsFrom(d, j + i)
    decreases |d| - j - i
  {
    var t := d[j..];
    var a := SkipSpace(t, i);
    var b := SkipSpace(d, j + i);
    assert b == j + a by { SkipSpaceShift(d, j, i); }
    if a < |t| {
      var ea := WordEnd(t, a);
      var eb := WordEnd(d, b);
      assert eb == j + ea by { WordEndShift(d, j, a); }
      assert t[a..ea] == d[b..eb] by { SliceShift(d, j, a, ea); }
      calc {
        WordsFrom(t, i);
        [t[a..ea]] + WordsFrom(t, ea);
        { WordsShift(d, j, ea); }
        [d[b..eb]] + WordsFrom(d, eb);
        WordsFrom(d, j + i);
      }
    }
  }

  lemma SliceShift(d: seq<char>, j: nat, a: nat, e: nat)
    requires j + a <= j + e <= |d|
    ensures d[j..][a..e] == d[j + a..j + e]
  {
  }

  lemma WordsOfSuffix(d: seq<char>, j: nat)
    requires j <= |d|
    ensures Words(d[j..]) == WordsFrom(d, j)
  {
    calc {
      Words(d[j..]);
      WordsFrom(d[j..], 0);
      { WordsShift(d, j, 0); }
      WordsFrom(d, j + 0);
    }
  }
}
