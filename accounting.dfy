/**
 * What one call of handle_entries does to TT.entries and TT.bytes, which
 * arguments it takes and where it stops, stated as functions; and the lemmas
 * that say what those mean: the words taken are the record's next words in
 * order, the byte and entry limits hold, the -E word is never taken, and the
 * filling pass takes exactly what the counting pass counted.
 */
module Accounting {
  import opened Wrappers
  import opened Tokens

  /** sizeof(void *) == sizeof(char *) on the 64-bit targets the model assumes. */
  const PtrSize: nat := 8

  /** The options handle_entries reads: TT.s, TT.n (0: no -n), FLAG(s), TT.E, and TT.delim != 0. */
  datatype Limits = Limits(s: int, n: nat, sFlag: bool, stop: Option<Token>, ws: bool)

  /** The four answers of handle_entries: NULL, a pointer into data (as an index), 1 and 2. */
  datatype Outcome = NeedMore | Leftover(at: nat) | Consumed | Stopped

  /** The outcome, the new TT.entries and TT.bytes, and the arguments taken, in order. */
  datatype Scanned = Scanned(res: Outcome, entries: nat, bytes: int, toks: seq<Token>)

  /** Bytes charged for one argument besides its characters and its NUL. */
  function Overhead(c: Limits): nat {
    if !c.ws then PtrSize else if c.sFlag then 0 else PtrSize + 1
  }

  function Cost(c: Limits, t: Token): int {
    Overhead(c) + |t| + 1
  }

  function Costs(c: Limits, ts: seq<Token>): int {
    if ts == [] then 0 else Cost(c, ts[0]) + Costs(c, ts[1..])
  }

  /** The arguments a record supplies: its words, or with -0 the record itself. */
  function WordsOf(c: Limits, d: seq<char>): seq<Token> {
    if c.ws then Words(d) else [d]
  }

  predicate IsStop(c: Limits, t: Token) {
    c.ws && c.stop == Some(t)
  }

  /** The arguments that precede the first -E word. */
  function Cut(c: Limits, ts: seq<Token>): seq<Token> {
    if ts == [] || IsStop(c, ts[0]) then [] else [ts[0]] + Cut(c, ts[1..])
  }

  /** TT.bytes after `++TT.bytes >= TT.s` fires, counting up from b. */
  function Charged(b: int, s: int): (r: int)
    ensures r > b && r >= s && (r == b + 1 || r == s)
  {
    if b + 1 >= s then b + 1 else s
  }

  /**
   * The whitespace branch of handle_entries from `s == d + i` on, one turn of
   * its `for (; *s; TT.entries++)` loop at a time; fill tells the filling
   * pass (which steps over the NUL it writes) from the counting pass.
   */
  function WsScan(c: Limits, d: seq<char>, i: nat, fill: bool, entries: nat, bytes: int): Scanned
    requires i <= |d|
    decreases |d| - i, 2
  {
    if i == |d| then Scanned(NeedMore, entries, bytes, [])
    else WsNext(c, d, SkipSpace(d, i), fill, entries, bytes)
  }

  /** After the blanks: the -n check, the end of the record, or a word at j. */
  function WsNext(c: Limits, d: seq<char>, j: nat, fill: bool, entries: nat, bytes: int): Scanned
    requires j <= |d| && (j < |d| ==> !IsSpace(d[j]))
    decreases |d| - j, 1
  {
    if c.n != 0 && entries >= c.n then
      Scanned(if j < |d| then Leftover(j) else Consumed, entries, bytes, [])
    else if j == |d| then Scanned(NeedMore, entries, bytes, [])
    else WsWord(c, d, j, WordEnd(d, j), fill, entries, bytes + (if c.sFlag then 0 else PtrSize + 1))
  }

  /** The word d[j..e], with TT.bytes already charged the pointer overhead (b). */
  function WsWord(c: Limits, d: seq<char>, j: nat, e: nat, fill: bool, entries: nat, b: int): Scanned
    requires j < e <= |d|
    decreases |d| - j, 0
  {
    if b + (e - j) + 1 >= c.s then Scanned(Leftover(j), entries, Charged(b, c.s), [])
    else if c.stop == Some(d[j..e]) then Scanned(Stopped, entries, b + (e - j) + 1, [])
    else
      var rest := WsScan(c, d, if fill && e < |d| then e + 1 else e, fill, entries + 1, b + (e - j) + 1);
      rest.(toks := [d[j..e]] + rest.toks)
  }

  /** The -0 branch: the whole record is one argument. */
  function NulScan(c: Limits, d: seq<char>, entries: nat, bytes: int): (r: Scanned)
    ensures r.res == NeedMore || r.res == Leftover(0)
    ensures r.res == NeedMore ==> r.toks == [d] && r.entries == entries + 1 && (c.n == 0 || entries < c.n) && r.bytes < c.s
    ensures r.res != NeedMore ==> r.toks == [] && r.entries == entries && r.bytes == bytes
  {
    var b := bytes + PtrSize + |d| + 1;
    if b >= c.s || (c.n != 0 && entries >= c.n) then Scanned(Leftover(0), entries, bytes, [])
    else Scanned(NeedMore, entries + 1, b, [d])
  }

  /**
   * One call of handle_entries on the record d: TT.entries counts one per
   * argument taken, and with -0 the only answers are NULL (the record was
   * taken) and the whole record as the leftover.
   */
  function Handle(c: Limits, d: seq<char>, fill: bool, entries: nat, bytes: int): (r: Scanned)
    ensures r.entries == entries + |r.toks|
    ensures !c.ws ==> r.res == NeedMore || r.res == Leftover(0)
  {
    if c.ws then WsScanEntries(c, d, 0, fill, entries, bytes); WsScan(c, d, 0, fill, entries, bytes)
    else NulScan(c, d, entries, bytes)
  }

  /**
   * The -0 branch takes the record exactly when its pointer, characters and
   * NUL fit below TT.s and -n is not reached; taking it charges exactly that
   * and counts one entry, and otherwise the whole record is the leftover and
   * the counters are left alone.
   */
  lemma NulRecord(c: Limits, d: seq<char>, fill: bool, en: nat, b0: int)
    requires !c.ws
    ensures var r := Handle(c, d, fill, en, b0);
      && (r.res == NeedMore <==> b0 + Cost(c, d) < c.s && (c.n == 0 || en < c.n))
      && (r.res == NeedMore ==> r.entries == en + 1 && r.bytes == b0 + Cost(c, d) && r.toks == [d])
      && (r.res != NeedMore ==> r == Scanned(Leftover(0), en, b0, []))
  {
  }

  lemma {:induction false} CostsAppend(c: Limits, a: seq<Token>, b: seq<Token>)
    ensures Costs(c, a + b) == Costs(c, a) + Costs(c, b)
    decreases |a|
  {
    if a == [] {
      assert a + b == b;
    } else {
      assert (a + b)[1..] == a[1..] + b;
      CostsAppend(c, a[1..], b);
    }
  }

  /** Cutting at the first -E word leaves a stop-free prefix, so cutting more changes nothing. */
  lemma {:induction false} CutAppend(c: Limits, a: seq<Token>, b: seq<Token>)
    requires forall t :: t in a ==> !IsStop(c, t)
    ensures Cut(c, a + b) == a + Cut(c, b)
    decreases |a|
  {
    if a == [] {
      assert a + b == b;
    } else {
      assert (a + b)[0] == a[0];
      assert (a + b)[1..] == a[1..] + b;
      CutAppend(c, a[1..], b);
    }
  }

  /** The cut keeps a beginning of the arguments. */
  lemma {:induction false} CutIsPrefix(c: Limits, ts: seq<Token>)
    ensures Cut(c, ts) <= ts
  {
    if ts != [] && !IsStop(c, ts[0]) {
      CutIsPrefix(c, ts[1..]);
    }
  }

  /** What Cut leaves out begins with the -E word. */
  lemma {:induction false} CutEndsAtStop(c: Limits, ts: seq<Token>)
    requires |Cut(c, ts)| < |ts|
    ensures IsStop(c, ts[|Cut(c, ts)|])
  {
    if !IsStop(c, ts[0]) {
      CutEndsAtStop(c, ts[1..]);
    }
  }

  /** Every argument costs at least one byte, so the cost of arguments is never negative. */
  lemma {:induction false} CostsNonNegative(c: Limits, ts: seq<Token>)
    ensures Costs(c, ts) >= |ts|
  {
    if ts != [] {
      CostsNonNegative(c, ts[1..]);
    }
  }

  /** Arguments that begin others cost no more than they do. */
  lemma CostsPrefix(c: Limits, a: seq<Token>, b: seq<Token>)
    requires a <= b
    ensures Costs(c, a) <= Costs(c, b)
  {
    assert b == a + b[|a|..];
    CostsAppend(c, a, b[|a|..]);
    CostsNonNegative(c, b[|a|..]);
  }

  lemma CutAtStop(c: Limits, a: seq<Token>, t: Token, b: seq<Token>)
    requires forall u :: u in a ==> !IsStop(c, u)
    requires IsStop(c, t)
    ensures Cut(c, a + [t] + b) == a
  {
    assert a + [t] + b == a + ([t] + b);
    CutAppend(c, a, [t] + b);
  }

  /** Each word the whitespace scan takes is one entry, and the -E word is never taken. */
  lemma {:induction false} WsScanEntries(c: Limits, d: seq<char>, i: nat, fill: bool, en: nat, b0: int)
    requires i <= |d|
    ensures var r := WsScan(c, d, i, fill, en, b0);
      r.entries == en + |r.toks| && forall t :: t in r.toks ==> c.stop != Some(t)
    decreases |d| - i
  {
    if i < |d| {
      var j := SkipSpace(d, i);
      assert WsScan(c, d, i, fill, en, b0) == WsNext(c, d, j, fill, en, b0);
      if !(c.n != 0 && en >= c.n) && j < |d| {
        var e := WordEnd(d, j);
        var b := b0 + (if c.sFlag then 0 else PtrSize + 1);
        assert WsNext(c, d, j, fill, en, b0) == WsWord(c, d, j, e, fill, en, b);
        if b + (e - j) + 1 < c.s && c.stop != Some(d[j..e]) {
          var next := if fill && e < |d| then e + 1 else e;
          WsScanEntries(c, d, next, fill, en + 1, b + (e - j) + 1);
          var r := WsScan(c, d, next, fill, en + 1, b + (e - j) + 1);
          assert WsWord(c, d, j, e, fill, en, b) == r.(toks := [d[j..e]] + r.toks);
        }
      }
    }
  }

  /** NULL and 1 mean the scan took every remaining word of the record, in order. */
  lemma {:induction false} WsScanTakesAll(c: Limits, d: seq<char>, i: nat, fill: bool, en: nat, b0: int)
    requires i <= |d|
    ensures var r := WsScan(c, d, i, fill, en, b0);
      r.res.NeedMore? || r.res.Consumed? ==> r.toks == WordsFrom(d, i)
    decreases |d| - i, 1
  {
    if i < |d| {
      var j := SkipSpace(d, i);
      assert WsScan(c, d, i, fill, en, b0) == WsNext(c, d, j, fill, en, b0);
      if !(c.n != 0 && en >= c.n) && j < |d| {
        var b := b0 + (if c.sFlag then 0 else PtrSize + 1);
        assert WsNext(c, d, j, fill, en, b0) == WsWord(c, d, j, WordEnd(d, j), fill, en, b);
        WsWordTakesAll(c, d, i, j, fill, en, b);
      }
    }
  }

  lemma {:induction false} WsWordTakesAll(c: Limits, d: seq<char>, i: nat, j: nat, fill: bool, en: nat, b: int)
    requires i <= |d| && j == SkipSpace(d, i) && j < |d|
    ensures var r := WsWord(c, d, j, WordEnd(d, j), fill, en, b);
      r.res.NeedMore? || r.res.Consumed? ==> r.toks == WordsFrom(d, i)
    decreases |d| - j, 0
  {
    var e := WordEnd(d, j);
    if b + (e - j) + 1 < c.s && c.stop != Some(d[j..e]) {
      var next := if fill && e < |d| then e + 1 else e;
      WsScanTakesAll(c, d, next, fill, en + 1, b + (e - j) + 1);
      WordsStep(d, i, j, next);
    }
  }

  /** A leftover points at the first word not taken; the words before it were taken in order. */
  lemma {:induction false} WsScanLeftover(c: Limits, d: seq<char>, i: nat, fill: bool, en: nat, b0: int)
    requires i <= |d|
    ensures var r := WsScan(c, d, i, fill, en, b0);
      r.res.Leftover? ==> i <= r.res.at < |d| && !IsSpace(d[r.res.at])
                          && r.toks + WordsFrom(d, r.res.at) == WordsFrom(d, i)
    decreases |d| - i, 1
  {
    if i < |d| {
      var j := SkipSpace(d, i);
      WordsSkip(d, i);
      assert WsScan(c, d, i, fill, en, b0) == WsNext(c, d, j, fill, en, b0);
      if !(c.n != 0 && en >= c.n) && j < |d| {
        var b := b0 + (if c.sFlag then 0 else PtrSize + 1);
        assert WsNext(c, d, j, fill, en, b0) == WsWord(c, d, j, WordEnd(d, j), fill, en, b);
        WsWordLeftover(c, d, i, j, fill, en, b);
      }
    }
  }

  lemma {:induction false} WsWordLeftover(c: Limits, d: seq<char>, i: nat, j: nat, fill: bool, en: nat, b: int)
    requires i <= |d| && j == SkipSpace(d, i) && j < |d|
    ensures var r := WsWord(c, d, j, WordEnd(d, j), fill, en, b);
      r.res.Leftover? ==> i <= r.res.at < |d| && !IsSpace(d[r.res.at])
                          && r.toks + WordsFrom(d, r.res.at) == WordsFrom(d, i)
    decreases |d| - j, 0
  {
    var e := WordEnd(d, j);
    if b + (e - j) + 1 >= c.s {
      assert WsWord(c, d, j, e, fill, en, b).res == Leftover(j) && WsWord(c, d, j, e, fill, en, b).toks == [];
      WordsSkip(d, i);
    } else if c.stop == Some(d[j..e]) {
      assert WsWord(c, d, j, e, fill, en, b).res == Stopped;
    } else {
      var next := if fill && e < |d| then e + 1 else e;
      var r := WsScan(c, d, next, fill, en + 1, b + (e - j) + 1);
      var v := WsWord(c, d, j, e, fill, en, b);
      assert v.res == r.res && v.toks == [d[j..e]] + r.toks;
      WsScanLeftover(c, d, next, fill, en + 1, b + (e - j) + 1);
      WordsStep(d, i, j, next);
      PrependLeftover(d, i, next, d[j..e], r, v);
    }
  }

  /** A leftover found after word w is a leftover of the scan that took w first. */
  lemma PrependLeftover(d: seq<char>, i: nat, next: nat, w: Token, r: Scanned, v: Scanned)
    requires i <= next <= |d| && v.res == r.res && v.toks == [w] + r.toks
    requires WordsFrom(d, i) == [w] + WordsFrom(d, next)
    requires r.res.Leftover? ==> next <= r.res.at < |d| && !IsSpace(d[r.res.at])
                                 && r.toks + WordsFrom(d, r.res.at) == WordsFrom(d, next)
    ensures v.res.Leftover? ==> i <= v.res.at < |d| && !IsSpace(d[v.res.at])
                                && v.toks + WordsFrom(d, v.res.at) == WordsFrom(d, i)
  {
    if v.res.Leftover? {
      var at, tail := r.res.at, WordsFrom(d, r.res.at);
      assert v.toks + tail == [w] + (r.toks + tail);
    }
  }

  /** 2 means the word after the ones taken is the -E word. */
  lemma {:induction false} WsScanStop(c: Limits, d: seq<char>, i: nat, fill: bool, en: nat, b0: int)
    requires i <= |d|
    ensures var r := WsScan(c, d, i, fill, en, b0);
      r.res.Stopped? ==> c.stop.Some? && r.toks + [c.stop.value] <= WordsFrom(d, i)
    decreases |d| - i, 1
  {
    if i < |d| {
      var j := SkipSpace(d, i);
      assert WsScan(c, d, i, fill, en, b0) == WsNext(c, d, j, fill, en, b0);
      if !(c.n != 0 && en >= c.n) && j < |d| {
        var e := WordEnd(d, j);
        var b := b0 + (if c.sFlag then 0 else PtrSize + 1);
        assert WsNext(c, d, j, fill, en, b0) == WsWord(c, d, j, e, fill, en, b);
        WsWordStop(c, d, i, j, e, fill, en, b);
      }
    }
  }

  lemma {:induction false} WsWordStop(c: Limits, d: seq<char>, i: nat, j: nat, e: nat, fill: bool, en: nat, b: int)
    requires i <= |d| && j == SkipSpace(d, i) && j < |d| && e == WordEnd(d, j)
    ensures var r := WsWord(c, d, j, e, fill, en, b);
      r.res.Stopped? ==> c.stop.Some? && r.toks + [c.stop.value] <= WordsFrom(d, i)
    decreases |d| - j, 0
  {
    if b + (e - j) + 1 < c.s {
      if c.stop == Some(d[j..e]) {
        assert WsWord(c, d, j, e, fill, en, b).toks == [];
        WordsStep(d, i, j, e);
      } else {
        var next := if fill && e < |d| then e + 1 else e;
        var r := WsScan(c, d, next, fill, en + 1, b + (e - j) + 1);
        assert WsWord(c, d, j, e, fill, en, b).res == r.res && WsWord(c, d, j, e, fill, en, b).toks == [d[j..e]] + r.toks;
        WsScanStop(c, d, next, fill, en + 1, b + (e - j) + 1);
        WordsStep(d, i, j, next);
        if r.res.Stopped? {
          PrefixCons(d[j..e], r.toks + [c.stop.value], WordsFrom(d, next));
          assert [d[j..e]] + r.toks + [c.stop.value] == [d[j..e]] + (r.toks + [c.stop.value]);
        }
      }
    }
  }

  lemma PrefixCons(w: Token, a: seq<Token>, b: seq<Token>)
    requires a <= b
    ensures [w] + a <= [w] + b
  {
    assert ([w] + b)[..|a| + 1] == [w] + a;
  }

  /**
   * The byte accounting of the whitespace scan: every word taken is charged
   * its length, its NUL and (without -s) a pointer and one more byte, and the
   * total stays strictly below TT.s; the -E word is charged too.
   */
  lemma {:induction false} WsScanBytes(c: Limits, d: seq<char>, i: nat, fill: bool, en: nat, b0: int)
    requires i <= |d| && c.ws
    ensures var r := WsScan(c, d, i, fill, en, b0);
      && (r.res.NeedMore? || r.res.Consumed? ==> r.bytes == b0 + Costs(c, r.toks))
      && (r.toks != [] ==> b0 + Costs(c, r.toks) < c.s)
      && (r.res.Stopped? ==> c.stop.Some? && r.bytes == b0 + Costs(c, r.toks) + Cost(c, c.stop.value) < c.s)
    decreases |d| - i, 1
  {
    if i < |d| {
      var j := SkipSpace(d, i);
      assert WsScan(c, d, i, fill, en, b0) == WsNext(c, d, j, fill, en, b0);
      if !(c.n != 0 && en >= c.n) && j < |d| {
        var e := WordEnd(d, j);
        var b := b0 + (if c.sFlag then 0 else PtrSize + 1);
        assert WsNext(c, d, j, fill, en, b0) == WsWord(c, d, j, e, fill, en, b);
        WsWordBytes(c, d, j, e, fill, en, b0, b);
      }
    }
  }

  lemma {:induction false} WsWordBytes(c: Limits, d: seq<char>, j: nat, e: nat, fill: bool, en: nat, b0: int, b: int)
    requires j < |d| && e == WordEnd(d, j) && j < e && c.ws
    requires b == b0 + (if c.sFlag then 0 else PtrSize + 1)
    ensures var r := WsWord(c, d, j, e, fill, en, b);
      && (r.res.NeedMore? || r.res.Consumed? ==> r.bytes == b0 + Costs(c, r.toks))
      && (r.toks != [] ==> b0 + Costs(c, r.toks) < c.s)
      && (r.res.Stopped? ==> c.stop.Some? && r.bytes == b0 + Costs(c, r.toks) + Cost(c, c.stop.value) < c.s)
    decreases |d| - j, 0
  {
    if b + (e - j) + 1 < c.s {
      assert Cost(c, d[j..e]) == b + (e - j) + 1 - b0;
      if c.stop == Some(d[j..e]) {
        assert WsWord(c, d, j, e, fill, en, b) == Scanned(Stopped, en, b + (e - j) + 1, []);
      } else {
        var next := if fill && e < |d| then e + 1 else e;
        var r := WsScan(c, d, next, fill, en + 1, b + (e - j) + 1);
        assert WsWord(c, d, j, e, fill, en, b) == r.(toks := [d[j..e]] + r.toks);
        WsScanBytes(c, d, next, fill, en + 1, b + (e - j) + 1);
        CostsAppend(c, [d[j..e]], r.toks);
      }
    }
  }

  /**
   * A scan stops early only when the batch is full: 1 only once -n entries
   * are counted, a leftover only when -n is reached or its first word does not
   * fit in TT.s; and the count never passes -n.
   */
  lemma {:induction false} WsScanFull(c: Limits, d: seq<char>, i: nat, fill: bool, en: nat, b0: int)
    requires i <= |d| && c.ws
    ensures var r := WsScan(c, d, i, fill, en, b0);
      && (r.res.Consumed? ==> c.n != 0 && r.entries >= c.n)
      && (r.res.Leftover? ==>
            r.res.at < |d| &&
            ((c.n != 0 && r.entries >= c.n) ||
             b0 + Costs(c, r.toks) + Cost(c, d[r.res.at..WordEnd(d, r.res.at)]) >= c.s))
      && (c.n != 0 && en <= c.n ==> r.entries <= c.n)
    decreases |d| - i, 1
  {
    if i < |d| {
      var j := SkipSpace(d, i);
      assert WsScan(c, d, i, fill, en, b0) == WsNext(c, d, j, fill, en, b0);
      if !(c.n != 0 && en >= c.n) && j < |d| {
        var e := WordEnd(d, j);
        var b := b0 + (if c.sFlag then 0 else PtrSize + 1);
        assert WsNext(c, d, j, fill, en, b0) == WsWord(c, d, j, e, fill, en, b);
        WsWordFull(c, d, j, e, fill, en, b0, b);
      }
    }
  }

  lemma {:induction false} WsWordFull(c: Limits, d: seq<char>, j: nat, e: nat, fill: bool, en: nat, b0: int, b: int)
    requires j < |d| && e == WordEnd(d, j) && j < e && c.ws && !(c.n != 0 && en >= c.n)
    requires b == b0 + (if c.sFlag then 0 else PtrSize + 1)
    ensures var r := WsWord(c, d, j, e, fill, en, b);
      && (r.res.Consumed? ==> c.n != 0 && r.entries >= c.n)
      && (r.res.Leftover? ==>
            r.res.at < |d| &&
            ((c.n != 0 && r.entries >= c.n) ||
             b0 + Costs(c, r.toks) + Cost(c, d[r.res.at..WordEnd(d, r.res.at)]) >= c.s))
      && (c.n != 0 && en <= c.n ==> r.entries <= c.n)
    decreases |d| - j, 0
  {
    if b + (e - j) + 1 >= c.s {
      assert WsWord(c, d, j, e, fill, en, b) == Scanned(Leftover(j), en, Charged(b, c.s), []);
    } else if c.stop != Some(d[j..e]) {
      var next := if fill && e < |d| then e + 1 else e;
      var r := WsScan(c, d, next, fill, en + 1, b + (e - j) + 1);
      assert WsWord(c, d, j, e, fill, en, b) == r.(toks := [d[j..e]] + r.toks);
      WsScanFull(c, d, next, fill, en + 1, b + (e - j) + 1);
      assert Cost(c, d[j..e]) == b + (e - j) + 1 - b0;
      CostsAppend(c, [d[j..e]], r.toks);
    }
  }

  /**
   * The filling pass, which steps over each NUL it writes, ends with the
   * counters and the arguments of the counting pass; only the answer may
   * differ, NULL where the counting pass said 1.
   */
  lemma {:induction false} FillMatchesCount(c: Limits, d: seq<char>, i: nat, i2: nat, en: nat, b0: int)
    requires i <= i2 <= |d|
    requires forall k :: i <= k < i2 ==> IsSpace(d[k])
    ensures var f := WsScan(c, d, i2, true, en, b0);
      var k := WsScan(c, d, i, false, en, b0);
      f.entries == k.entries && f.bytes == k.bytes && f.toks == k.toks &&
      (f.res == k.res || (f.res == NeedMore && k.res == Consumed))
    decreases |d| - i, 1
  {
    if i2 < |d| {
      SkipSpaceAcross(d, i, i2);
      FillNextMatches(c, d, SkipSpace(d, i), en, b0);
    } else if i < |d| {
      assert WsScan(c, d, i, false, en, b0) == WsNext(c, d, SkipSpace(d, i), false, en, b0);
    }
  }

  /** FillMatchesCount once the blanks are behind: both passes look at the same word. */
  lemma {:induction false} FillNextMatches(c: Limits, d: seq<char>, j: nat, en: nat, b0: int)
    requires j <= |d| && (j < |d| ==> !IsSpace(d[j]))
    ensures var f := WsNext(c, d, j, true, en, b0);
      var k := WsNext(c, d, j, false, en, b0);
      f.entries == k.entries && f.bytes == k.bytes && f.toks == k.toks &&
      (f.res == k.res || (f.res == NeedMore && k.res == Consumed))
    decreases |d| - j, 0
  {
    if !(c.n != 0 && en >= c.n) && j < |d| {
      var e := WordEnd(d, j);
      var b := b0 + (if c.sFlag then 0 else PtrSize + 1);
      if b + (e - j) + 1 < c.s && c.stop != Some(d[j..e]) {
        FillMatchesCount(c, d, e, if e < |d| then e + 1 else e, en + 1, b + (e - j) + 1);
      }
    }
  }


  /**
   * One call of handle_entries, in terms of the arguments the record supplies:
   * it takes them in order, one entry each, never the -E word; NULL and 1 mean
   * it took all of them, a leftover is the record's untaken tail (at least one
   * argument), and 2 means the next argument is the -E word.
   */
  lemma HandleTakes(c: Limits, d: seq<char>, fill: bool, en: nat, b0: int)
    ensures var r := Handle(c, d, fill, en, b0);
      && r.entries == en + |r.toks|
      && (forall t :: t in r.toks ==> !IsStop(c, t))
      && (r.res.NeedMore? || r.res.Consumed? ==> r.toks == WordsOf(c, d))
      && (r.res.Leftover? ==>
            r.res.at <= |d| && WordsOf(c, d[r.res.at..]) != [] &&
            r.toks + WordsOf(c, d[r.res.at..]) == WordsOf(c, d))
      && (r.res.Stopped? ==>
            c.ws && c.stop.Some? && r.toks + [c.stop.value] <= WordsOf(c, d) &&
            Cut(c, WordsOf(c, d)) == r.toks)
  {
    if c.ws {
      var r := WsScan(c, d, 0, fill, en, b0);
      WsScanEntries(c, d, 0, fill, en, b0);
      WsScanTakesAll(c, d, 0, fill, en, b0);
      WsScanLeftover(c, d, 0, fill, en, b0);
      WsScanStop(c, d, 0, fill, en, b0);
      if r.res.Leftover? {
        WordsOfSuffix(d, r.res.at);
      }
      if r.res.Stopped? {
        var ws := Words(d);
        assert ws == r.toks + [c.stop.value] + ws[|r.toks| + 1..];
        CutAtStop(c, r.toks, c.stop.value, ws[|r.toks| + 1..]);
      }
    } else {
      assert d[0..] == d;
    }
  }

  /**
   * The limits one call of handle_entries keeps: what it takes is charged
   * exactly and stays strictly below TT.s, the count stays within -n, and it
   * stops before the end of the record only when -n is reached or the next
   * argument does not fit.
   */
  lemma HandleCharges(c: Limits, d: seq<char>, fill: bool, en: nat, b0: int)
    ensures var r := Handle(c, d, fill, en, b0);
      && (r.res.NeedMore? || r.res.Consumed? ==> r.bytes == b0 + Costs(c, r.toks))
      && (r.toks != [] ==> b0 + Costs(c, r.toks) < c.s)
      && (r.res.Consumed? ==> c.n != 0 && r.entries >= c.n)
      && (r.res.Leftover? ==>
            r.res.at <= |d| && WordsOf(c, d[r.res.at..]) != [] &&
            ((c.n != 0 && r.entries >= c.n) ||
             b0 + Costs(c, r.toks) + Cost(c, WordsOf(c, d[r.res.at..])[0]) >= c.s))
      && (c.n != 0 && en <= c.n ==> r.entries <= c.n)
      && (r.res.Stopped? ==> c.stop.Some? && b0 + Costs(c, r.toks) + Cost(c, c.stop.value) < c.s)
  {
    HandleTakes(c, d, fill, en, b0);
    if c.ws {
      var r := WsScan(c, d, 0, fill, en, b0);
      WsScanBytes(c, d, 0, fill, en, b0);
      WsScanFull(c, d, 0, fill, en, b0);
      WsScanEntries(c, d, 0, fill, en, b0);
      if r.res.Leftover? {
        WordsOfSuffix(d, r.res.at);
        WsScanLeftover(c, d, 0, fill, en, b0);
        assert WordsFrom(d, r.res.at)[0] == d[r.res.at..WordEnd(d, r.res.at)];
      }
    } else {
      assert d[0..] == d;
      assert Costs(c, [d]) == Cost(c, d) + Costs(c, []);
    }
  }

  /** The filling call ends with the counters and the arguments of the counting call. */
  lemma HandleFillMatchesCount(c: Limits, d: seq<char>, en: nat, b0: int)
    ensures var f := Handle(c, d, true, en, b0);
      var k := Handle(c, d, false, en, b0);
      f.entries == k.entries && f.bytes == k.bytes && f.toks == k.toks &&
      (f.res == k.res || (f.res == NeedMore && k.res == Consumed))
  {
    if c.ws {
      FillMatchesCount(c, d, 0, 0, en, b0);
    }
  }

  /**
   * handle_entries run over the records of one batch in turn, from the given
   * counters: the answer of the last call, the final counters, and every
   * argument taken, in order.
   */
  function Fold(c: Limits, recs: seq<seq<char>>, fill: bool, en: nat, b0: int): (r: Scanned)
    ensures r.entries == en + |r.toks|
    decreases |recs|
  {
    if recs == [] then Scanned(NeedMore, en, b0, [])
    else
      var p := Fold(c, recs[..|recs| - 1], fill, en, b0);
      var r := Handle(c, recs[|recs| - 1], fill, p.entries, p.bytes);
      r.(toks := p.toks + r.toks)
  }

  /** The arguments taken from the first i records come first, so the count only grows. */
  lemma {:induction false} FoldPrefix(c: Limits, recs: seq<seq<char>>, i: nat, fill: bool, en: nat, b0: int)
    requires i <= |recs|
    ensures Fold(c, recs[..i], fill, en, b0).toks <= Fold(c, recs, fill, en, b0).toks
    ensures Fold(c, recs[..i], fill, en, b0).entries <= Fold(c, recs, fill, en, b0).entries
    decreases |recs| - i
  {
    if i < |recs| {
      var shorter := recs[..|recs| - 1];
      assert shorter[..i] == recs[..i];
      FoldPrefix(c, shorter, i, fill, en, b0);
    } else {
      assert recs[..i] == recs;
    }
  }

  /**
   * The filling pass over a batch's records, restarted from the same counters,
   * takes exactly the arguments the counting pass counted and ends with the
   * same counters.
   */
  lemma {:induction false} FoldFillMatchesCount(c: Limits, recs: seq<seq<char>>, en: nat, b0: int)
    ensures var f := Fold(c, recs, true, en, b0);
      var k := Fold(c, recs, false, en, b0);
      f.entries == k.entries && f.bytes == k.bytes && f.toks == k.toks
    decreases |recs|
  {
    if recs != [] {
      FoldFillMatchesCount(c, recs[..|recs| - 1], en, b0);
      var p := Fold(c, recs[..|recs| - 1], false, en, b0);
      HandleFillMatchesCount(c, recs[|recs| - 1], p.entries, p.bytes);
    }
  }

  /** The arguments the whole input supplies: each record read as a C string. */
  function Stream(c: Limits, raws: seq<seq<char>>): seq<Token> {
    if raws == [] then [] else WordsOf(c, CStr(raws[0])) + Stream(c, raws[1..])
  }

  /** The arguments still held in a leftover copy (none for NULL). */
  function Pending(c: Limits, data: Option<seq<char>>): seq<Token> {
    if data.None? then [] else WordsOf(c, data.value)
  }

  /** Adding one record to a batch is one more call of handle_entries on the counters so far. */
  lemma FoldStep(c: Limits, recs: seq<seq<char>>, d: seq<char>, fill: bool, en: nat, b0: int)
    ensures var p := Fold(c, recs, fill, en, b0);
      var r := Handle(c, d, fill, p.entries, p.bytes);
      Fold(c, recs + [d], fill, en, b0) == r.(toks := p.toks + r.toks)
  {
    assert (recs + [d])[..|recs|] == recs;
  }

  /** No argument is the -E word. */
  predicate NoStop(c: Limits, ts: seq<Token>) {
    forall t :: t in ts ==> !IsStop(c, t)
  }

  /**
   * Between records of the counting pass: every call so far asked for more,
   * one entry per argument, each argument charged exactly, the total below
   * TT.s, no -E word, and at most -n arguments.
   */
  predicate Open(c: Limits, p: Scanned, b0: int) {
    && p.res == NeedMore && p.entries == |p.toks| && p.bytes == b0 + Costs(c, p.toks)
    && NoStop(c, p.toks)
    && (p.toks != [] ==> b0 + Costs(c, p.toks) < c.s)
    && (c.n != 0 ==> p.entries <= c.n)
  }

  lemma NoStopAppend(c: Limits, a: seq<Token>, b: seq<Token>)
    requires NoStop(c, a) && NoStop(c, b)
    ensures NoStop(c, a + b)
  {
  }

  /** The counters after one more call of handle_entries, with the arguments so far in front. */
  function Next(c: Limits, p: Scanned, d: seq<char>): Scanned {
    var r := Handle(c, d, false, p.entries, p.bytes);
    r.(toks := p.toks + r.toks)
  }

  /** Which arguments one more record adds to an open batch, against the words offered. */
  lemma NextTakes(c: Limits, p: Scanned, d: seq<char>, b0: int)
    requires Open(c, p, b0)
    ensures var q := Next(c, p, d);
      var offered := p.toks + WordsOf(c, d);
      && q.entries == |q.toks| && NoStop(c, q.toks)
      && (q.res.NeedMore? || q.res.Consumed? ==> q.toks == offered)
      && (q.res.Leftover? ==>
            && q.res.at <= |d| && WordsOf(c, d[q.res.at..]) != []
            && q.toks + WordsOf(c, d[q.res.at..]) == offered)
      && (q.res.Stopped? ==> c.ws && c.stop.Some? && q.toks + [c.stop.value] <= offered)
  {
    var r := Handle(c, d, false, p.entries, p.bytes);
    HandleTakes(c, d, false, p.entries, p.bytes);
    NoStopAppend(c, p.toks, r.toks);
    if r.res.Leftover? {
      assert (p.toks + r.toks) + WordsOf(c, d[r.res.at..]) == p.toks + (r.toks + WordsOf(c, d[r.res.at..]));
    }
    if r.res.Stopped? {
      assert (p.toks + r.toks) + [c.stop.value] == p.toks + (r.toks + [c.stop.value]);
      PrefixAppend(p.toks, r.toks + [c.stop.value], WordsOf(c, d));
    }
  }

  /** What one more record charges an open batch, and the limits it keeps. */
  lemma NextCharges(c: Limits, p: Scanned, d: seq<char>, b0: int)
    requires Open(c, p, b0)
    ensures var q := Next(c, p, d);
      && (c.n != 0 ==> q.entries <= c.n)
      && (q.toks != [] ==> b0 + Costs(c, q.toks) < c.s)
      && (q.res.NeedMore? ==> q.bytes == b0 + Costs(c, q.toks))
      && (q.res.Consumed? ==> c.n != 0 && q.entries >= c.n)
      && (q.res.Leftover? ==>
            q.res.at <= |d| && WordsOf(c, d[q.res.at..]) != [] &&
            ((c.n != 0 && q.entries >= c.n) ||
             b0 + Costs(c, q.toks) + Cost(c, WordsOf(c, d[q.res.at..])[0]) >= c.s))
      && (q.res.Stopped? ==> c.stop.Some? && b0 + Costs(c, q.toks) + Cost(c, c.stop.value) < c.s)
  {
    var r := Handle(c, d, false, p.entries, p.bytes);
    HandleCharges(c, d, false, p.entries, p.bytes);
    CostsAppend(c, p.toks, r.toks);
  }

  /** The counting pass of a batch after one more record. */
  lemma CountNext(c: Limits, recs: seq<seq<char>>, d: seq<char>, b0: int)
    requires Open(c, Fold(c, recs, false, 0, b0), b0)
    ensures var p := Fold(c, recs, false, 0, b0);
      var q := Fold(c, recs + [d], false, 0, b0);
      var offered := p.toks + WordsOf(c, d);
      && q == Next(c, p, d)
      && q.entries == |q.toks| && NoStop(c, q.toks)
      && (c.n != 0 ==> q.entries <= c.n)
      && (q.toks != [] ==> b0 + Costs(c, q.toks) < c.s)
      && (q.res.NeedMore? ==> Open(c, q, b0) && q.toks == offered)
      && (q.res.Consumed? ==> q.toks == offered && c.n != 0 && q.entries >= c.n)
      && (q.res.Leftover? ==>
            && q.res.at <= |d| && WordsOf(c, d[q.res.at..]) != []
            && q.toks + WordsOf(c, d[q.res.at..]) == offered
            && ((c.n != 0 && q.entries >= c.n) ||
                b0 + Costs(c, q.toks) + Cost(c, WordsOf(c, d[q.res.at..])[0]) >= c.s))
      && (q.res.Stopped? ==> c.ws && c.stop.Some? && q.toks + [c.stop.value] <= offered)
  {
    var p := Fold(c, recs, false, 0, b0);
    FoldStep(c, recs, d, false, 0, b0);
    NextTakes(c, p, d, b0);
    NextCharges(c, p, d, b0);
  }

  lemma PrefixAppend<T>(a: seq<T>, b: seq<T>, c: seq<T>)
    requires b <= c
    ensures a + b <= a + c
  {
    assert (a + c)[..|a| + |b|] == a + b;
  }

  /** Once the -E word follows the arguments taken, nothing after it matters. */
  lemma StopCut(c: Limits, toks: seq<Token>, offered: seq<Token>, rest: seq<Token>)
    requires c.ws && c.stop.Some? && NoStop(c, toks) && toks + [c.stop.value] <= offered
    ensures Cut(c, offered + rest) == toks
  {
    var after := offered[|toks| + 1..];
    assert offered == toks + [c.stop.value] + after;
    assert offered + rest == toks + [c.stop.value] + (after + rest);
    CutAtStop(c, toks, c.stop.value, after + rest);
  }
}
