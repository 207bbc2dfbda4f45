/**
 * xargs_main and handle_entries over the toy's globals: the options, TT.s,
 * and the running TT.entries and TT.bytes of the batch being built.
 */
module Run {
  import opened Wrappers
  import opened Tokens
  import opened Accounting
  import opened ExitStatus
  import opened Batching

  /** Bytes kept back from ARG_MAX for the child's own use when -s is not given. */
  const Headroom: int := 4096

  /** The command to run: COMMAND, or echo when none is given. */
  function Command(cmd: seq<Token>): (p: seq<Token>)
    ensures p != [] && (cmd != [] ==> p == cmd) && (cmd == [] ==> p == ["echo"])
  {
    if cmd == [] then ["echo"] else cmd
  }

  /** The characters of the words, all together. */
  function Chars(p: seq<Token>): nat {
    if p == [] then 0 else Chars(p[..|p| - 1]) + |p[|p| - 1]|
  }

  /**
   * What the command itself takes of TT.s: each word its characters and its
   * NUL, and (without -s) a pointer; less one byte.
   */
  function PrefixBytes(p: seq<Token>, sFlag: bool): int {
    -1 + Chars(p) + |p| * (if sFlag then 1 else 1 + PtrSize)
  }

  /** The "count entries" loop over the command's words. */
  method CommandBytes(p: seq<Token>, sFlag: bool) returns (bytes: int)
    ensures bytes == PrefixBytes(p, sFlag)
  {
    bytes := -1;
    var i := 0;
    while i < |p|
      invariant 0 <= i <= |p|
      invariant bytes == PrefixBytes(p[..i], sFlag)
    {
      assert p[..i + 1][..i] == p[..i];
      bytes := bytes + |p[i]| + 1 + (if sFlag then 0 else PtrSize);
      i := i + 1;
    }
    assert p[..i] == p;
  }

  /** The blank-skipping loop at the head of each word in handle_entries. */
  method SkipBlanks(data: seq<char>, i0: nat) returns (i: nat)
    requires i0 <= |data|
    ensures i == SkipSpace(data, i0)
  {
    i := i0;
    while i < |data| && IsSpace(data[i])
      invariant i0 <= i <= |data| && SkipSpace(data, i0) == SkipSpace(data, i)
    {
      i := i + 1;
    }
  }

  /** An argv slot per word, each non-NULL. */
  function Somes(ts: seq<Token>): (v: seq<Option<Token>>)
    ensures |v| == |ts| && forall k :: 0 <= k < |ts| ==> v[k] == Some(ts[k])
  {
    seq(|ts|, k requires 0 <= k < |ts| => Some(ts[k]))
  }

  /** What exec reads from a NULL-terminated argv: the words before the first NULL. */
  function Argv(v: seq<Option<Token>>): seq<Token> {
    if v == [] || v[0].None? then [] else [v[0].value] + Argv(v[1..])
  }

  lemma {:induction false} ArgvOfSomes(ts: seq<Token>)
    ensures Argv(Somes(ts) + [None]) == ts
    decreases |ts|
  {
    if ts != [] {
      assert (Somes(ts) + [None])[1..] == Somes(ts[1..]) + [None];
      ArgvOfSomes(ts[1..]);
    }
  }

  /** was with the words ts stored in slots lo, lo + 1, ... (as far as was reaches). */
  function Written(was: seq<Option<Token>>, lo: nat, ts: seq<Token>): (now: seq<Option<Token>>)
    ensures |now| == |was|
  {
    seq(|was|, k requires 0 <= k < |was| => if lo <= k < lo + |ts| then Some(ts[k - lo]) else was[k])
  }

  /** Storing one more word is one more store into the next slot. */
  lemma WrittenStep(was: seq<Option<Token>>, lo: nat, ts: seq<Token>, t: Token)
    requires lo + |ts| < |was|
    ensures Written(was, lo, ts + [t]) == Written(was, lo, ts)[lo + |ts| := Some(t)]
  {
  }

  class Xargs {
    /** -0: records end in NUL and each is one argument. */
    const nul: bool
    /** -s was given (TT.s is then its value, and no pointer overhead is charged for words). */
    const sFlag: bool
    /** -n, or 0 when not given. */
    const n: nat
    /** -E. */
    const stop: Option<Token>
    /** -r. */
    const rFlag: bool
    /** -p. */
    const pFlag: bool

    /** TT.s: the byte limit for one command line. */
    var s: int
    /** TT.entries: arguments counted (or filled in) so far in this batch. */
    var entries: nat
    /** TT.bytes: bytes charged so far in this batch. */
    var bytes: int

    constructor (nul: bool, sFlag: bool, sArg: int, n: nat, stop: Option<Token>, rFlag: bool, pFlag: bool)
      ensures this.nul == nul && this.sFlag == sFlag && this.n == n && this.stop == stop
      ensures this.rFlag == rFlag && this.pFlag == pFlag
      ensures s == sArg && entries == 0 && bytes == 0
    {
      this.nul, this.sFlag, this.n, this.stop := nul, sFlag, n, stop;
      this.rFlag, this.pFlag := rFlag, pFlag;
      s, entries, bytes := sArg, 0, 0;
    }

    /** The options handle_entries consults. */
    function Cfg(): Limits
      reads this`s
    {
      Limits(s, n, sFlag, stop, !nul)
    }

    /**
     * handle_entries: with entry == NULL count the record's arguments that
     * still fit into TT.entries and TT.bytes; otherwise also store them in
     * entry[base + TT.entries ..]. The answer and the new counters are those
     * of Handle, whose lemmas say what they mean.
     */
    method HandleEntries(data: seq<char>, entry: array?<Option<Token>>, base: nat) returns (r: Outcome)
      requires NoNul(data)
      requires entry != null ==> base + Handle(Cfg(), data, true, entries, bytes).entries <= entry.Length
      modifies this`entries, this`bytes, entry
      ensures var sc := Handle(Cfg(), data, entry != null, old(entries), old(bytes));
        && r == sc.res && entries == sc.entries && bytes == sc.bytes
        && (entry != null ==> entry[..] == Written(old(entry[..]), base + old(entries), sc.toks))
    {
      if nul {
        var b := bytes + PtrSize + |data| + 1;
        if b >= s || (n != 0 && entries >= n) {
          return Leftover(0);
        }
        bytes := b;
        if entry != null {
          entry[base + entries] := Some(data);
        }
        entries := entries + 1;
        return NeedMore;
      }
      r := HandleWords(data, entry, base);
    }

    /** handle_entries without -0: the record is split into words at blanks. */
    method HandleWords(data: seq<char>, entry: array?<Option<Token>>, base: nat) returns (r: Outcome)
      requires !nul
      requires entry != null ==> base + WsScan(Cfg(), data, 0, true, entries, bytes).entries <= entry.Length
      modifies this`entries, this`bytes, entry
      ensures var sc := WsScan(Cfg(), data, 0, entry != null, old(entries), old(bytes));
        && r == sc.res && entries == sc.entries && bytes == sc.bytes
        && (entry != null ==> entry[..] == Written(old(entry[..]), base + old(entries), sc.toks))
    {
      var c := Cfg();
      var fill := entry != null;
      ghost var e0, b0 := entries, bytes;
      ghost var acc: seq<Token> := [];
      ghost var orig: seq<Option<Token>> := if entry != null then entry[..] else [];
      ghost var sc0 := WsScan(c, data, 0, fill, e0, b0);
      var i := 0;
      var done: Option<Outcome> := None;
      while done.None? && i < |data|
        invariant i <= |data|
        invariant entry != null ==> entry[..] == Written(orig, base + e0, acc)
        invariant done.None? ==> entries == e0 + |acc| && sc0 == Prefixed(acc, WsScan(c, data, i, fill, entries, bytes))
        invariant done.Some? ==> sc0 == Scanned(done.value, entries, bytes, acc)
        decreases |data| - i, if done.None? then 1 else 0
      {
        var next;
        next, done, acc := WordStep(data, i, entry, base, c, sc0, e0, orig, acc);
        if done.None? {
          i := next;
        }
      }
      if done.None? {
        assert acc + [] == acc;
        r := NeedMore;
      } else {
        r := done.value;
      }
    }

    /**
     * One turn of HandleWords' loop: the scan so far has taken acc; NextWord
     * either ends it (done) or takes one more word, after which the scan
     * resumes at next.
     */
    method WordStep(data: seq<char>, i: nat, entry: array?<Option<Token>>, base: nat, ghost c: Limits, ghost sc0: Scanned,
                    ghost e0: nat, ghost orig: seq<Option<Token>>, ghost acc0: seq<Token>)
      returns (next: nat, done: Option<Outcome>, ghost acc: seq<Token>)
      requires !nul && i < |data| && c == Cfg() && entries == e0 + |acc0|
      requires sc0 == Prefixed(acc0, WsScan(c, data, i, entry != null, entries, bytes))
      requires entry != null ==> base + sc0.entries <= entry.Length && entry[..] == Written(orig, base + e0, acc0)
      modifies this`entries, this`bytes, entry
      ensures done.Some? ==> && sc0 == Scanned(done.value, entries, bytes, acc)
                             && (entry != null ==> entry[..] == Written(orig, base + e0, acc))
      ensures done.None? ==> && i < next <= |data| && entries == e0 + |acc|
                             && sc0 == Prefixed(acc, WsScan(c, data, next, entry != null, entries, bytes))
                             && (entry != null ==> entry[..] == Written(orig, base + e0, acc))
    {
      ghost var w;
      next, done, w := NextWord(data, i, entry, base);
      if done.Some? {
        assert acc0 + [] == acc0;
        acc := acc0;
        return;
      }
      PrefixedTwice(acc0, [w], WsScan(c, data, next, entry != null, entries, bytes));
      if entry != null {
        WrittenStep(orig, base + e0, acc0, w);
      }
      acc := acc0 + [w];
    }

    /**
     * One pass of handle_entries' loop from i0: skip blanks, stop once -n
     * entries are counted or at the end of the record, else take one word
     * (TakeWord). done is the answer handle_entries returns; otherwise the
     * word w was taken and the scan resumes at next.
     */
    method NextWord(data: seq<char>, i0: nat, entry: array?<Option<Token>>, base: nat)
      returns (next: nat, done: Option<Outcome>, ghost w: Token)
      requires !nul && i0 < |data|
      requires entry != null ==> base + WsScan(Cfg(), data, i0, true, entries, bytes).entries <= entry.Length
      modifies this`entries, this`bytes, entry
      ensures var sc := WsScan(Cfg(), data, i0, entry != null, old(entries), old(bytes));
        && (done.Some? ==> sc == Scanned(done.value, entries, bytes, []) && (entry != null ==> unchanged(entry)))
        && (done.None? ==>
              && i0 < next <= |data| && entries == old(entries) + 1
              && sc == Prefixed([w], WsScan(Cfg(), data, next, entry != null, entries, bytes))
              && (entry != null ==>
                    base + old(entries) < entry.Length && entry[..] == old(entry[..])[base + old(entries) := Some(w)]))
    {
      ghost var c := Cfg();
      ghost var fill := entry != null;
      var i := SkipBlanks(data, i0);
      assert WsScan(c, data, i0, fill, entries, bytes) == WsNext(c, data, i, fill, entries, bytes);
      if n != 0 && entries >= n {
        return 0, Some(if i < |data| then Leftover(i) else Consumed), [];
      }
      if i == |data| {
        return 0, Some(NeedMore), [];
      }
      w := data[i..WordEnd(data, i)];
      next, done := TakeWord(data, i, entry, base);
    }

    /**
     * The byte loop of handle_entries over the word at save: one byte per
     * character and one for its NUL, giving up as soon as TT.bytes reaches
     * TT.s. full says it gave up, and TT.bytes is then charged up to the first
     * value at or past TT.s; otherwise i is the end of the word.
     */
    method ChargeWord(data: seq<char>, save: nat) returns (i: nat, full: bool)
      requires save < |data| && !IsSpace(data[save])
      modifies this`bytes
      ensures var e := WordEnd(data, save);
        && (full <==> old(bytes) + (e - save) + 1 >= s)
        && (full ==> bytes == Charged(old(bytes), s))
        && (!full ==> i == e && bytes == old(bytes) + (e - save) + 1)
    {
      ghost var e := WordEnd(data, save);
      i := save;
      while true
        invariant save <= i <= e && WordEnd(data, i) == e
        invariant bytes == old(bytes) + (i - save)
        invariant i == save || bytes < s
        decreases |data| - i
      {
        bytes := bytes + 1;
        if bytes >= s {
          return i, true;
        }
        if i == |data| || IsSpace(data[i]) {
          break;
        }
        i := i + 1;
      }
      full := false;
    }

    /**
     * One word of handle_entries, from its first character at save: charge the
     * pointer (without -s) and a byte per character and its NUL, give up when
     * TT.s is reached or the word is the -E string, else store it and count it.
     * done is the answer handle_entries returns early; otherwise next is where
     * the scan resumes.
     */
    method TakeWord(data: seq<char>, save: nat, entry: array?<Option<Token>>, base: nat)
      returns (next: nat, done: Option<Outcome>)
      requires !nul && save < |data| && !IsSpace(data[save])
      requires n == 0 || entries < n
      requires entry != null ==> base + WsNext(Cfg(), data, save, true, entries, bytes).entries <= entry.Length
      modifies this`entries, this`bytes, entry
      ensures var c, fill, e := Cfg(), entry != null, WordEnd(data, save);
        var w := WsNext(c, data, save, fill, old(entries), old(bytes));
        && (done.Some? ==> w == Scanned(done.value, entries, bytes, []) && (entry != null ==> unchanged(entry)))
        && (done.None? ==>
              && next == (if fill && e < |data| then e + 1 else e)
              && entries == old(entries) + 1
              && w == Prefixed([data[save..e]], WsScan(c, data, next, fill, entries, bytes))
              && (entry != null ==> base + old(entries) < entry.Length && entry[..] == old(entry[..])[base + old(entries) := Some(data[save..e])]))
    {
      ghost var c := Cfg();
      ghost var fill := entry != null;
      ghost var e := WordEnd(data, save);
      ghost var pre := bytes;
      if !sFlag {
        bytes := bytes + PtrSize + 1;
      }
      ghost var b := bytes;
      assert WsNext(c, data, save, fill, entries, pre) == WsWord(c, data, save, e, fill, entries, b);
      var i, full := ChargeWord(data, save);
      if full {
        return 0, Some(Leftover(save));
      }
      if stop == Some(data[save..i]) {
        return 0, Some(Stopped);
      }
      assert WsScan(c, data, if fill && i < |data| then i + 1 else i, fill, entries + 1, bytes).entries >= entries + 1 by {
        WsScanEntries(c, data, if fill && i < |data| then i + 1 else i, fill, entries + 1, bytes);
      }
      if entry != null {
        entry[base + entries] := Some(data[save..i]);
        if i < |data| {
          i := i + 1;
        }
      }
      entries := entries + 1;
      next := i;
      done := None;
    }

    /**
     * One turn of the reading loop of xargs_main. Unless a leftover copy is
     * pending, read the next record, or at the end of the input set done and
     * leave the loop (fin). Otherwise add the record to dlist, count it with
     * handle_entries, and keep of it what xargs_main keeps in data: nothing
     * after NULL, 1 and 2, the copy of the leftover otherwise; every answer
     * but NULL leaves the loop, and 2 sets done. p is the counting pass over
     * dlist; supplied is what the batch was offered.
     */
    method ReadStep(input: seq<seq<char>>, data0: Option<seq<char>>, k0: nat, dlist0: seq<seq<char>>,
                    ghost c: Limits, ghost cost: int, ghost supplied: seq<Token>, ghost p0: Scanned)
      returns (fin: bool, done: bool, data: Option<seq<char>>, k: nat, dlist: seq<seq<char>>, ghost stopped: bool, ghost p: Scanned)
      requires k0 <= |input| && Cfg() == c && AllCStr(dlist0) && (data0.Some? ==> NoNul(data0.value))
      requires p0 == Fold(c, dlist0, false, 0, cost) && Open(c, p0, cost)
      requires entries == p0.entries && bytes == p0.bytes
      requires supplied == p0.toks + Pending(c, data0) + Stream(c, input[k0..])
      modifies this`entries, this`bytes
      ensures k0 <= k <= |input| && AllCStr(dlist) && (data.Some? ==> NoNul(data.value))
      ensures p == Fold(c, dlist, false, 0, cost) && entries == p.entries == |p.toks| && bytes == p.bytes
      ensures !fin ==> && data.None? && (if data0.None? then k == k0 + 1 else k == k0)
                       && Open(c, p, cost) && supplied == p.toks + Pending(c, data) + Stream(c, input[k..])
      ensures fin ==> && BatchEnd(c, cost, supplied, p.toks, data, Stream(c, input[k..]), done, stopped)
                      && (done && !stopped ==> k == |input|)
    {
      data, k, dlist, p := data0, k0, dlist0, p0;
      if data.None? {
        if k == |input| {
          EndAtEof(c, cost, supplied, p);
          return true, true, data, k, dlist, false, p;
        }
        ReadRecord(c, supplied, p0.toks, input, k);
        data := Some(CStr(input[k]));
        k := k + 1;
      }
      var d := data.value;
      ghost var rest := Stream(c, input[k..]);
      FoldStep(c, dlist0, d, false, 0, cost);
      AllCStrAppend(dlist0, d);
      dlist := dlist0 + [d];
      var r := HandleEntries(d, null, 0);
      p := Next(c, p0, d);
      if r == NeedMore {
        GoOn(c, cost, supplied, p0, d, rest);
        return false, false, None, k, dlist, false, p;
      }
      EndAfter(c, cost, supplied, p0, d, rest);
      fin, done, stopped := true, r == Stopped, r == Stopped;
      data := if r.Leftover? && r.at <= |d| then Some(d[r.at..]) else None;
    }

    /**
     * The reading loop of one batch in xargs_main: with TT.entries reset to 0
     * and TT.bytes to the command's bytes (cost), hand handle_entries the
     * leftover copy from the last batch and then one record after another
     * (ReadStep) until a call does not ask for more or the input runs out
     * (done). The batch is what the counting pass over dlist takes; BatchEnd
     * says how it relates to what the leftover and the unread records offer.
     * stopped says the batch ended at the -E word.
     */
    method ReadBatch(input: seq<seq<char>>, data0: Option<seq<char>>, k0: nat, cost: int)
      returns (data: Option<seq<char>>, k: nat, dlist: seq<seq<char>>, done: bool,
               ghost stopped: bool, ghost batch: seq<Token>, ghost supplied: seq<Token>, ghost c: Limits)
      requires k0 <= |input| && (data0.Some? ==> NoNul(data0.value))
      modifies this`entries, this`bytes
      ensures c == Cfg() && batch == Fold(c, dlist, false, 0, cost).toks && supplied == Pending(c, data0) + Stream(c, input[k0..])
      ensures k0 <= k <= |input| && AllCStr(dlist) && (data.Some? ==> NoNul(data.value)) && entries == |batch|
      ensures BatchEnd(c, cost, supplied, batch, data, Stream(c, input[k..]), done, stopped)
      ensures done && !stopped ==> k == |input|
    {
      c := Cfg();
      supplied := Pending(c, data0) + Stream(c, input[k0..]);
      entries, bytes := 0, cost;
      data, k, dlist := data0, k0, [];
      ghost var p := Fold(c, dlist, false, 0, cost);
      while true
        invariant k0 <= k <= |input| && AllCStr(dlist) && (data.Some? ==> NoNul(data.value))
        invariant p == Fold(c, dlist, false, 0, cost) && Open(c, p, cost)
        invariant entries == p.entries && bytes == p.bytes
        invariant supplied == p.toks + Pending(c, data) + Stream(c, input[k..])
        decreases |input| - k, if data.Some? then 1 else 0
      {
        var fin;
        fin, done, data, k, dlist, stopped, p := ReadStep(input, data, k, dlist, c, cost, supplied, p);
        if fin {
          batch := p.toks;
          return;
        }
      }
    }

    /**
     * One filling call of handle_entries in xargs_main, on record m of the
     * batch's records dlist: the counters and the arguments stored in out
     * from slot base on move on from those of the filling pass over the
     * records before it to those of the pass that includes it.
     */
    method FillRecord(dlist: seq<seq<char>>, m: nat, out: array<Option<Token>>, base: nat,
                      ghost c: Limits, ghost cost: int, ghost orig: seq<Option<Token>>)
      requires Cfg() == c && m < |dlist| && NoNul(dlist[m])
      requires var f := Fold(c, dlist[..m], true, 0, cost);
        entries == f.entries && bytes == f.bytes && out[..] == Written(orig, base, f.toks)
      requires base + Fold(c, dlist, true, 0, cost).entries <= out.Length
      modifies this`entries, this`bytes, out
      ensures var f := Fold(c, dlist[..m + 1], true, 0, cost);
        entries == f.entries && bytes == f.bytes && out[..] == Written(orig, base, f.toks)
    {
      ghost var recs, d := dlist[..m], dlist[m];
      assert recs + [d] == dlist[..m + 1];
      FoldPrefix(c, dlist, m + 1, true, 0, cost);
      ghost var f := Fold(c, recs, true, 0, cost);
      FoldStep(c, recs, d, true, 0, cost);
      var _ := HandleEntries(dlist[m], out, base);
      WrittenTwice(orig, base, f.toks, Handle(c, d, true, f.entries, f.bytes).toks);
    }

    /** A zeroed argv for the command's words, count arguments and the final NULL, with the command's words in front. */
    method NewArgv(prefix: seq<Token>, count: nat) returns (out: array<Option<Token>>)
      ensures fresh(out) && out[..] == Somes(prefix) + Nones(count + 1)
    {
      out := new Option<Token>[|prefix| + count + 1](_ => None);
      forall i | 0 <= i < |prefix| {
        out[i] := Some(prefix[i]);
      }
      assert out[..] == Somes(prefix) + Nones(count + 1);
    }

    /**
     * The filling pass of xargs_main: out gets room for the command's words,
     * the TT.entries arguments counted and a final NULL (xzalloc), the
     * command's words in front (memcpy), and then handle_entries run once more
     * over dlist from the same counters stores the batch's arguments after
     * the command's words. The pointers out holds become the words themselves.
     */
    method FillArgv(prefix: seq<Token>, dlist: seq<seq<char>>, cost: int) returns (out: array<Option<Token>>)
      requires AllCStr(dlist) && entries == |Fold(Cfg(), dlist, false, 0, cost).toks|
      modifies this`entries, this`bytes
      ensures fresh(out)
      ensures out[..] == Somes(prefix) + Somes(Fold(Cfg(), dlist, false, 0, cost).toks) + [None]
    {
      ghost var c := Cfg();
      ghost var batch := Fold(c, dlist, false, 0, cost).toks;
      out := NewArgv(prefix, entries);
      ghost var orig := Somes(prefix) + Nones(|batch| + 1);
      FoldFillMatchesCount(c, dlist, 0, cost);
      entries, bytes := 0, cost;
      var m := 0;
      while m < |dlist|
        invariant m <= |dlist|
        invariant var f := Fold(c, dlist[..m], true, 0, cost);
          entries == f.entries && bytes == f.bytes && out[..] == Written(orig, |prefix|, f.toks)
      {
        FillRecord(dlist, m, out, |prefix|, c, cost, orig);
        m := m + 1;
      }
      assert dlist[..m] == dlist;
      WrittenArgv(prefix, batch);
    }

    /**
     * The reading half of a turn of the outer loop (see ReadBatch), stated
     * against the whole input: flat is what earlier batches handed out of
     * the input's arguments (all), and the batch read moves that place on.
     */
    method ReadPlaced(input: seq<seq<char>>, data0: Option<seq<char>>, k0: nat, cost: int,
                      ghost c: Limits, ghost all: seq<Token>, ghost flat: seq<Token>)
      returns (data: Option<seq<char>>, k: nat, dlist: seq<seq<char>>, done: bool, ghost batch: seq<Token>)
      requires Cfg() == c && cost < c.s && k0 <= |input| && (data0.Some? ==> NoNul(data0.value))
      requires Place(c, all, flat, data0, Stream(c, input[k0..]), false)
      modifies this`entries, this`bytes
      ensures k0 <= k <= |input| && (data.Some? ==> NoNul(data.value))
      ensures AllCStr(dlist) && batch == Fold(c, dlist, false, 0, cost).toks && entries == |batch|
      ensures Place(c, all, flat + batch, data, Stream(c, input[k..]), done)
      ensures !done ==> |Pending(c, data) + Stream(c, input[k..])| + |batch| == |Pending(c, data0) + Stream(c, input[k0..])|
      ensures cost + Costs(c, batch) < c.s && (c.n == 0 || |batch| <= c.n)
      ensures batch == [] ==> (done || data.Some?) && flat + batch == flat
      ensures batch == [] && data.Some? ==> flat < all && cost + Cost(c, all[|flat|]) >= c.s
      ensures !done ==> Full(c, cost, all, batch, flat + batch)
      ensures done ==> EndFits(c, cost, all)
    {
      ghost var stopped, supplied, c';
      data, k, dlist, done, stopped, batch, supplied, c' := ReadBatch(input, data0, k0, cost);
      Advance(c, cost, all, flat, data0, Stream(c, input[k0..]), batch, data, Stream(c, input[k..]), done, stopped);
      if !done {
        Closed(c, cost, all, flat, data0, Stream(c, input[k0..]), batch, data, Stream(c, input[k..]), stopped);
      }
    }

    /**
     * One batch of the outer loop up to the exec: read it (see ReadPlaced),
     * then, unless the batch is empty and there is a leftover, a child has
     * already run or -r was given, fill in the argv.
     */
    method Gather(input: seq<seq<char>>, data0: Option<seq<char>>, k0: nat, prefix: seq<Token>, cost: int, forked: bool,
                  ghost c: Limits, ghost all: seq<Token>, ghost flat: seq<Token>)
      returns (data: Option<seq<char>>, k: nat, done: bool, argv: Option<seq<Token>>, ghost batch: seq<Token>)
      requires Cfg() == c && cost < c.s && k0 <= |input| && (data0.Some? ==> NoNul(data0.value))
      requires Place(c, all, flat, data0, Stream(c, input[k0..]), false)
      modifies this`entries, this`bytes
      ensures k0 <= k <= |input| && (data.Some? ==> NoNul(data.value))
      ensures Place(c, all, flat + batch, data, Stream(c, input[k..]), done)
      ensures !done ==> |Pending(c, data) + Stream(c, input[k..])| + |batch| == |Pending(c, data0) + Stream(c, input[k0..])|
      ensures cost + Costs(c, batch) < c.s && (c.n == 0 || |batch| <= c.n)
      ensures batch == [] ==> (done || data.Some?) && flat + batch == flat
      ensures batch == [] && data.Some? ==> flat < all && cost + Cost(c, all[|flat|]) >= c.s
      ensures !done ==> Full(c, cost, all, batch, flat + batch)
      ensures done ==> EndFits(c, cost, all)
      ensures argv.None? <==> batch == [] && (data.Some? || forked || rFlag)
      ensures argv.Some? ==> argv.value == prefix + batch
    {
      var dlist;
      data, k, dlist, done, batch := ReadPlaced(input, data0, k0, cost, c, all, flat);
      if entries == 0 && (data.Some? || forked || rFlag) {
        return data, k, done, None, batch;
      }
      var out := FillArgv(prefix, dlist, cost);
      ArgvOfBatch(prefix, batch);
      argv := Some(Argv(out[..]));
    }

    /**
     * The -p prompt, the fork and the wait for command line number m: with
     * -p a refusal skips it; otherwise the child ends as child(m) says, and
     * its status updates the exit value and may end xargs (stop).
     */
    method Launch(argv: seq<Token>, m: nat, exitval0: int, answer: nat -> bool, child: nat -> Status)
      returns (e: Event, exitval: int, stop: bool)
      ensures e == EventFor(m, argv, pFlag, answer, child)
      ensures stop == (e.Ran? && Stops(e.status))
      ensures exitval == if e.Ran? then Classify(e.status, exitval0).exitval else exitval0
    {
      exitval, stop := exitval0, false;
      if pFlag && !answer(m) {
        e := Declined(argv);
        return;
      }
      var status := child(m);
      e := Ran(argv, status);
      if status.Exited? {
        if status.code == 126 || status.code == 127 {
          exitval, stop := status.code, true;
        } else if 1 <= status.code <= 125 {
          exitval := 123;
        } else if status.code == 255 {
          exitval, stop := 124, true;
        }
      } else {
        exitval := 127;
      }
    }

    /**
     * One turn of the outer loop of xargs_main, from the state the previous
     * turns left (data0, k0, forked0, exitval0, events0; batches0 are their
     * input arguments): gather a batch, then either leave the loop (stop, with
     * ending saying why) or run the command line and carry on.
     */
    method Round(input: seq<seq<char>>, prefix: seq<Token>, cost: int, answer: nat -> bool, child: nat -> Status,
                 data0: Option<seq<char>>, k0: nat, forked0: bool, exitval0: int, events0: seq<Event>,
                 ghost u: Setup, ghost all: seq<Token>, ghost batches0: seq<seq<Token>>)
      returns (stop: bool, ending: Ending, data: Option<seq<char>>, k: nat, done: bool, forked: bool, exitval: int,
               events: seq<Event>, ghost batches: seq<seq<Token>>)
      requires u == Setup(Cfg(), prefix, cost, pFlag, rFlag) && cost < s && k0 <= |input| && (data0.Some? ==> NoNul(data0.value))
      requires Place(u.c, all, Flat(batches0), data0, Stream(u.c, input[k0..]), false)
      requires Log(u, answer, child, events0, batches0, exitval0, forked0, false) && Going(events0)
      requires Packed(u, all, batches0, false)
      modifies this`entries, this`bytes
      ensures k <= |input| && (data.Some? ==> NoNul(data.value))
      ensures !stop ==> Place(u.c, all, Flat(batches), data, Stream(u.c, input[k..]), done)
      ensures !stop ==> Log(u, answer, child, events, batches, exitval, forked, done) && Going(events)
      ensures !stop ==> Packed(u, all, batches, done)
      ensures !stop && done ==> EndFits(u.c, u.cost, all)
      ensures !stop && !(data.None? && done) ==>
                |Pending(u.c, data) + Stream(u.c, input[k..])| < |Pending(u.c, data0) + Stream(u.c, input[k0..])|
      ensures stop ==> Ended(u, answer, child, all, ending, exitval, events, batches)
    {
      var argv;
      ghost var batch;
      data, k, done, argv, batch := Gather(input, data0, k0, prefix, cost, forked0, u.c, all, Flat(batches0));
      stop, ending, forked, exitval, events, batches := false, Drained, forked0, exitval0, events0, batches0;
      if argv.None? {
        stop, ending := data.Some? || forked, if data.Some? then ArgumentTooLong else Drained;
        NoLine(u, answer, child, all, events, batches, exitval, forked, batch, data, Stream(u.c, input[k..]), done, stop, ending);
        return;
      }
      stop, ending, forked, exitval, events, batches :=
        Line(argv.value, answer, child, forked0, exitval0, events0, u, all, batches0, batch, data, Stream(u.c, input[k..]), done);
    }

    /**
     * The second half of a turn of the outer loop: run command line argv
     * (the command and batch), log it and leave the loop (stop) when the
     * child's status says so.
     */
    method Line(argv: seq<Token>, answer: nat -> bool, child: nat -> Status, forked0: bool, exitval0: int, events0: seq<Event>,
                ghost u: Setup, ghost all: seq<Token>, ghost batches0: seq<seq<Token>>, ghost batch: seq<Token>,
                ghost data: Option<seq<char>>, ghost rest: seq<Token>, ghost done: bool)
      returns (stop: bool, ending: Ending, forked: bool, exitval: int, events: seq<Event>, ghost batches: seq<seq<Token>>)
      requires u.pFlag == pFlag && u.rFlag == rFlag && argv == u.prefix + batch
      requires Log(u, answer, child, events0, batches0, exitval0, forked0, false) && Going(events0)
      requires Place(u.c, all, Flat(batches0) + batch, data, rest, done)
      requires u.cost + Costs(u.c, batch) < u.c.s && (u.c.n == 0 || |batch| <= u.c.n)
      requires batch == [] ==> done && !u.rFlag && !forked0
      requires Packed(u, all, batches0, false) && (!done ==> Full(u.c, u.cost, all, batch, Flat(batches0) + batch))
      ensures !stop ==> Place(u.c, all, Flat(batches), data, rest, done)
      ensures !stop ==> Log(u, answer, child, events, batches, exitval, forked, done) && Going(events)
      ensures !stop ==> Packed(u, all, batches, done)
      ensures stop ==> Ended(u, answer, child, all, ending, exitval, events, batches)
    {
      var e, v, st := Launch(argv, |events0|, exitval0, answer, child);
      if st {
        LineStops(u, answer, child, all, events0, batches0, exitval0, forked0, done, batch, data, rest, e, v);
      } else {
        LineGoes(u, answer, child, all, events0, batches0, exitval0, forked0, done, batch, data, rest, e, v);
      }
      stop, ending, forked, exitval, events, batches := st, ChildStopped, forked0 || e.Ran?, v, events0 + [e], batches0 + [batch];
    }

    /**
     * The outer loop of xargs_main, once the command fits: turn after turn
     * until the input is drained or a turn leaves the loop.
     */
    method Batches(input: seq<seq<char>>, prefix: seq<Token>, cost: int, answer: nat -> bool, child: nat -> Status, ghost u: Setup)
      returns (ending: Ending, exitval: int, events: seq<Event>, ghost batches: seq<seq<Token>>)
      requires u == Setup(Cfg(), prefix, cost, pFlag, rFlag) && cost < s
      modifies this`entries, this`bytes
      ensures Ended(u, answer, child, Stream(u.c, input), ending, exitval, events, batches)
    {
      ghost var c, all := u.c, Stream(u.c, input);
      var data: Option<seq<char>> := None;
      var k: nat := 0;
      var done, forked := false, false;
      ending, exitval, events, batches := Drained, 0, [], [];
      assert input[k..] == input && all <= all;
      while data.Some? || !done
        invariant k <= |input| && (data.Some? ==> NoNul(data.value))
        invariant Place(c, all, Flat(batches), data, Stream(c, input[k..]), done)
        invariant Log(u, answer, child, events, batches, exitval, forked, done) && Going(events)
        invariant Packed(u, all, batches, done)
        invariant done ==> EndFits(u.c, u.cost, all)
        decreases if data.None? && done then 0 else 1 + |Pending(c, data) + Stream(c, input[k..])|
      {
        var stop;
        stop, ending, data, k, done, forked, exitval, events, batches :=
          Round(input, prefix, cost, answer, child, data, k, forked, exitval, events, u, all, batches);
        if stop {
          return;
        }
      }
      ending := Drained;
      Finish(u, answer, child, all, ending, exitval, events, batches, forked, done);
    }

    /**
     * xargs_main: without -s, TT.s is ARG_MAX (argMax) less the environment
     * (envBytes) and the headroom; the command (echo when none is given) must
     * leave room below TT.s; then the batch loop runs (see Batches).
     */
    method XargsMain(cmd: seq<Token>, argMax: int, envBytes: int, input: seq<seq<char>>,
                     answer: nat -> bool, child: nat -> Status)
      returns (ending: Ending, exitval: int, events: seq<Event>, ghost batches: seq<seq<Token>>, ghost u: Setup)
      modifies this`s, this`entries, this`bytes
      ensures s == (if sFlag then old(s) else argMax - envBytes - Headroom)
      ensures u == Setup(Cfg(), Command(cmd), PrefixBytes(Command(cmd), sFlag), pFlag, rFlag)
      ensures (ending == CommandTooLong) == (u.cost >= s)
      ensures ending == CommandTooLong ==> events == [] && exitval == 0
      ensures ending != CommandTooLong ==> Ended(u, answer, child, Stream(u.c, input), ending, exitval, events, batches)
    {
      if !sFlag {
        s := argMax - envBytes - Headroom;
      }
      var prefix := Command(cmd);
      var cost := CommandBytes(prefix, sFlag);
      u := Setup(Cfg(), prefix, cost, pFlag, rFlag);
      if cost >= s {
        ending, exitval, events, batches := CommandTooLong, 0, [], [];
      } else {
        ending, exitval, events, batches := Batches(input, prefix, cost, answer, child, u);
      }
    }
  }


  /** Reading one more record moves its arguments from the unread input into the leftover. */
  lemma ReadRecord(c: Limits, supplied: seq<Token>, taken: seq<Token>, input: seq<seq<char>>, k: nat)
    requires k < |input| && supplied == taken + Pending(c, None) + Stream(c, input[k..])
    ensures supplied == taken + Pending(c, Some(CStr(input[k]))) + Stream(c, input[k + 1..])
  {
    var w, more := WordsOf(c, CStr(input[k])), Stream(c, input[k + 1..]);
    assert input[k..][1..] == input[k + 1..];
    assert Stream(c, input[k..]) == w + more;
    assert taken + [] + (w + more) == taken + w + more;
  }

  /** The input ran out between records: the batch is all that was supplied. */
  lemma EndAtEof(c: Limits, cost: int, supplied: seq<Token>, p: Scanned)
    requires Open(c, p, cost) && supplied == p.toks + Pending(c, None) + Stream(c, [])
    ensures BatchEnd(c, cost, supplied, p.toks, None, Stream(c, []), true, false)
  {
  }

  /** handle_entries asked for more: the batch stays open and has taken all of d. */
  lemma GoOn(c: Limits, cost: int, supplied: seq<Token>, p: Scanned, d: seq<char>, rest: seq<Token>)
    requires Open(c, p, cost) && supplied == p.toks + WordsOf(c, d) + rest
    requires Next(c, p, d).res == NeedMore
    ensures var q := Next(c, p, d);
      Open(c, q, cost) && supplied == q.toks + Pending(c, None) + rest
  {
    NextTakes(c, p, d, cost);
    NextCharges(c, p, d, cost);
  }

  /** handle_entries did not ask for more: the batch ends here. */
  lemma EndAfter(c: Limits, cost: int, supplied: seq<Token>, p: Scanned, d: seq<char>, rest: seq<Token>)
    requires Open(c, p, cost) && supplied == p.toks + WordsOf(c, d) + rest
    requires NoNul(d) && Next(c, p, d).res != NeedMore
    ensures var q := Next(c, p, d);
      && q.entries == |q.toks|
      && (q.res.Leftover? ==> q.res.at <= |d| && NoNul(d[q.res.at..]))
      && BatchEnd(c, cost, supplied, q.toks,
                  if q.res.Leftover? && q.res.at <= |d| then Some(d[q.res.at..]) else None,
                  rest, q.res.Stopped?, q.res.Stopped?)
  {
    var q := Next(c, p, d);
    var offered := p.toks + WordsOf(c, d);
    NextTakes(c, p, d, cost);
    NextCharges(c, p, d, cost);
    if q.res.Stopped? {
      StopCut(c, q.toks, offered, rest);
    } else if q.res.Consumed? {
      assert supplied == q.toks + Pending(c, None) + rest;
    } else {
      assert supplied == q.toks + WordsOf(c, d[q.res.at..]) + rest;
    }
  }

  /** n NULL slots. */
  function Nones(n: nat): (v: seq<Option<Token>>)
    ensures |v| == n && forall k :: 0 <= k < n ==> v[k].None?
  {
    seq(n, _ => None)
  }

  /** Storing a then b right after it is storing a + b. */
  lemma WrittenTwice(was: seq<Option<Token>>, lo: nat, a: seq<Token>, b: seq<Token>)
    ensures Written(Written(was, lo, a), lo + |a|, b) == Written(was, lo, a + b)
  {
  }

  /** The batch stored after the command's words in a zeroed buffer of the right size is the argv. */
  lemma WrittenArgv(prefix: seq<Token>, batch: seq<Token>)
    ensures Written(Somes(prefix) + Nones(|batch| + 1), |prefix|, batch) == Somes(prefix) + Somes(batch) + [None]
  {
  }

  /** The filled argv, as exec reads it, is the command followed by the batch. */
  lemma ArgvOfBatch(prefix: seq<Token>, batch: seq<Token>)
    ensures Argv(Somes(prefix) + Somes(batch) + [None]) == prefix + batch
  {
    assert Somes(prefix) + Somes(batch) == Somes(prefix + batch);
    ArgvOfSomes(prefix + batch);
  }


  /** Every record of the batch is a C string. */
  predicate AllCStr(ds: seq<seq<char>>) {
    forall m :: 0 <= m < |ds| ==> NoNul(ds[m])
  }

  lemma AllCStrAppend(ds: seq<seq<char>>, d: seq<char>)
    requires AllCStr(ds) && NoNul(d)
    ensures AllCStr(ds + [d])
  {
  }

  function Prefixed(acc: seq<Token>, r: Scanned): Scanned {
    r.(toks := acc + r.toks)
  }

  lemma PrefixedTwice(a: seq<Token>, w: seq<Token>, r: Scanned)
    ensures Prefixed(a, Prefixed(w, r)) == Prefixed(a + w, r)
  {
    assert a + (w + r.toks) == (a + w) + r.toks;
  }
}
