/**
 * The batch loop of xargs_main stated over values: what one batch leaves of
 * the input, and what the command lines run so far have done.
 */
module Batching {
  import opened Wrappers
  import opened Tokens
  import opened Accounting
  import opened ExitStatus

  /** The two outcomes of the whole run that are not fatal errors, and the two that are. */
  datatype Ending = Drained | ChildStopped | CommandTooLong | ArgumentTooLong

  /** One assembled command line: run (and how the child ended), or refused at the -p prompt. */
  datatype Event = Ran(argv: seq<Token>, status: Status) | Declined(argv: seq<Token>)

  /** What stays fixed for the whole loop: the limits, the command and its bytes, and the -p and -r flags. */
  datatype Setup = Setup(c: Limits, prefix: seq<Token>, cost: int, pFlag: bool, rFlag: bool)

  /**
   * What the reading loop of a batch leaves: the batch holds no -E word, fits
   * -n and, with the command's bytes (cost), stays below TT.s; unless the
   * batch ended at the -E word, what was supplied is the batch, then the
   * arguments of the leftover copy, then the rest of the input; at the -E
   * word the batch is all that counts of what was supplied. A leftover holds
   * at least one argument and is left because -n was reached or its first
   * argument did not fit; with neither a leftover nor the end of the input,
   * -n was reached.
   */
  ghost predicate BatchEnd(c: Limits, cost: int, supplied: seq<Token>, batch: seq<Token>,
                           data: Option<seq<char>>, rest: seq<Token>, done: bool, stopped: bool)
  {
    && NoStop(c, batch) && (c.n != 0 ==> |batch| <= c.n)
    && (batch != [] ==> cost + Costs(c, batch) < c.s)
    && (!stopped ==> supplied == batch + Pending(c, data) + rest)
    && (stopped ==> done && data.None? && c.ws && c.stop.Some? && Cut(c, supplied) == batch &&
                    cost + Costs(c, batch) + Cost(c, c.stop.value) < c.s)
    && (done && !stopped ==> data.None? && rest == [])
    && (data.Some? ==>
          && !done && WordsOf(c, data.value) != []
          && ((c.n != 0 && |batch| >= c.n) || cost + Costs(c, batch) + Cost(c, WordsOf(c, data.value)[0]) >= c.s))
    && (!done && data.None? ==> c.n != 0 && |batch| >= c.n)
  }

  /** The arguments of the batches, one after another. */
  function Flat(bs: seq<seq<Token>>): seq<Token> {
    if bs == [] then [] else Flat(bs[..|bs| - 1]) + bs[|bs| - 1]
  }

  lemma FlatAppend(bs: seq<seq<Token>>, b: seq<Token>)
    ensures Flat(bs + [b]) == Flat(bs) + b
  {
    assert (bs + [b])[..|bs|] == bs;
  }

  /** How the children of the commands that ran ended, in order. */
  function Statuses(evs: seq<Event>): seq<Status> {
    if evs == [] then []
    else Statuses(evs[..|evs| - 1]) + (if evs[|evs| - 1].Ran? then [evs[|evs| - 1].status] else [])
  }

  lemma StatusesAppend(evs: seq<Event>, e: Event)
    ensures Statuses(evs + [e]) == Statuses(evs) + (if e.Ran? then [e.status] else [])
  {
    assert (evs + [e])[..|evs|] == evs;
  }

  /** One more child's status is one more step of the exit-value rules. */
  lemma ExitAfterAppend(sts: seq<Status>, st: Status)
    ensures ExitAfter(sts + [st]) == Classify(st, ExitAfter(sts)).exitval
  {
    assert (sts + [st])[..|sts|] == sts;
  }

  /**
   * The m-th assembled command line: with -p, the answer to the m-th prompt
   * decides whether it runs; a command that runs ends as the m-th child does.
   */
  function EventFor(m: nat, argv: seq<Token>, pFlag: bool, answer: nat -> bool, child: nat -> Status): (e: Event)
    ensures e.argv == argv && (e.Declined? <==> pFlag && !answer(m))
  {
    if pFlag && !answer(m) then Declined(argv) else Ran(argv, child(m))
  }

  /** One more command line is one more step of the exit-value rules if it ran, and none if it did not. */
  lemma ExitAfterEvent(evs: seq<Event>, e: Event)
    ensures Statuses(evs + [e]) == Statuses(evs) + (if e.Ran? then [e.status] else [])
    ensures ExitAfter(Statuses(evs + [e])) ==
              if e.Ran? then Classify(e.status, ExitAfter(Statuses(evs))).exitval else ExitAfter(Statuses(evs))
  {
    StatusesAppend(evs, e);
    if e.Ran? {
      ExitAfterAppend(Statuses(evs), e.status);
    } else {
      assert Statuses(evs) + [] == Statuses(evs);
    }
  }

  /** When the input holds the -E word, that word fits alone with the command below TT.s. */
  ghost predicate EndFits(c: Limits, cost: int, all: seq<Token>) {
    |Cut(c, all)| < |all| ==> cost + Cost(c, all[|Cut(c, all)|]) < c.s
  }

  /**
   * Where the run stands in the input's arguments (all): the arguments
   * handed out so far (flat) hold no -E word and precede it; until the input
   * is done they, the leftover's arguments and the unread records' (rest)
   * make up all; once it is done they are all before the -E word.
   */
  ghost predicate Place(c: Limits, all: seq<Token>, flat: seq<Token>, data: Option<seq<char>>, rest: seq<Token>, done: bool) {
    && NoStop(c, flat) && flat <= Cut(c, all)
    && (!done ==> flat + Pending(c, data) + rest == all)
    && (done ==> data.None? && flat == Cut(c, all))
  }

  /**
   * One batch moves the place on by its arguments, and shrinks what remains;
   * an empty batch with a leftover means the leftover's first argument alone
   * does not fit, and an empty batch without one means the input is over.
   */
  lemma Advance(c: Limits, cost: int, all: seq<Token>, flat: seq<Token>, data0: Option<seq<char>>, rest0: seq<Token>,
                batch: seq<Token>, data: Option<seq<char>>, rest: seq<Token>, done: bool, stopped: bool)
    requires Place(c, all, flat, data0, rest0, false)
    requires BatchEnd(c, cost, Pending(c, data0) + rest0, batch, data, rest, done, stopped)
    ensures Place(c, all, flat + batch, data, rest, done)
    ensures !done ==> |Pending(c, data) + rest| + |batch| == |Pending(c, data0) + rest0|
    ensures batch == [] ==> (done || data.Some?) && flat + batch == flat
    ensures batch == [] && data.Some? ==> flat < all && cost + Cost(c, all[|flat|]) >= c.s
    ensures done ==> EndFits(c, cost, all)
  {
    var supplied := Pending(c, data0) + rest0;
    assert all == flat + supplied;
    if stopped {
      AdvanceToStop(c, all, flat, supplied, batch);
      StopFits(c, cost, all, batch);
    } else {
      AdvanceGoing(c, cost, all, flat, supplied, batch, data, rest, done);
    }
    if batch == [] {
      assert flat + batch == flat;
    }
  }

  /** A batch that ended at the -E word charged that word too, so it fits alone. */
  lemma StopFits(c: Limits, cost: int, all: seq<Token>, batch: seq<Token>)
    requires c.stop.Some? && cost + Costs(c, batch) + Cost(c, c.stop.value) < c.s
    ensures EndFits(c, cost, all)
  {
    if |Cut(c, all)| < |all| {
      CutEndsAtStop(c, all);
      CostsNonNegative(c, batch);
    }
  }

  /** Advance for a batch that did not end at the -E word. */
  lemma AdvanceGoing(c: Limits, cost: int, all: seq<Token>, flat: seq<Token>, supplied: seq<Token>,
                     batch: seq<Token>, data: Option<seq<char>>, rest: seq<Token>, done: bool)
    requires all == flat + supplied && NoStop(c, flat)
    requires BatchEnd(c, cost, supplied, batch, data, rest, done, false)
    ensures Place(c, all, flat + batch, data, rest, done)
    ensures !done ==> |Pending(c, data) + rest| + |batch| == |supplied|
    ensures batch == [] && data.Some? ==> flat < all && cost + Cost(c, all[|flat|]) >= c.s
  {
    var more := Pending(c, data) + rest;
    assert all == flat + (batch + more);
    AdvanceOn(c, all, flat, batch, more);
    if batch == [] && data.Some? {
      assert Pending(c, data) == WordsOf(c, data.value) && Costs(c, batch) == 0;
      TooLong(c, cost, all, flat, data.value, rest);
    }
  }

  /** A batch that ended at the -E word hands out the last arguments before it. */
  lemma AdvanceToStop(c: Limits, all: seq<Token>, flat: seq<Token>, supplied: seq<Token>, batch: seq<Token>)
    requires all == flat + supplied && NoStop(c, flat) && NoStop(c, batch) && Cut(c, supplied) == batch
    ensures NoStop(c, flat + batch) && flat + batch == Cut(c, all)
  {
    NoStopAppend(c, flat, batch);
    CutAppend(c, flat, supplied);
  }

  /** A batch that ended short of the -E word leaves the rest (more) in place. */
  lemma AdvanceOn(c: Limits, all: seq<Token>, flat: seq<Token>, batch: seq<Token>, more: seq<Token>)
    requires all == flat + batch + more && NoStop(c, flat) && NoStop(c, batch)
    ensures NoStop(c, flat + batch) && flat + batch <= Cut(c, all)
    ensures more == [] ==> flat + batch == Cut(c, all)
  {
    NoStopAppend(c, flat, batch);
    CutBefore(c, flat + batch, more);
  }

  /** The argument after the place is the first of the leftover's. */
  lemma TooLong(c: Limits, cost: int, all: seq<Token>, flat: seq<Token>, d: seq<char>, rest: seq<Token>)
    requires all == flat + WordsOf(c, d) + rest && WordsOf(c, d) != []
    requires cost + Cost(c, WordsOf(c, d)[0]) >= c.s
    ensures flat < all && cost + Cost(c, all[|flat|]) >= c.s
  {
    assert all[|flat|] == WordsOf(c, d)[0];
  }

  /** Stop-free arguments in front of more arguments are kept by the cut, and are all it keeps when no more follow. */
  lemma CutBefore(c: Limits, a: seq<Token>, more: seq<Token>)
    requires NoStop(c, a)
    ensures a <= Cut(c, a + more)
    ensures more == [] ==> Cut(c, a + more) == a
  {
    CutAppend(c, a, more);
    if more == [] {
      assert a + more == a;
    }
  }

  /**
   * A batch the loop closed for want of room: it holds -n arguments, or the
   * input argument after it (all[|after|], where after is what the batches
   * up to it hand out) would have taken it, with the command, to TT.s.
   */
  ghost predicate Full(c: Limits, cost: int, all: seq<Token>, batch: seq<Token>, after: seq<Token>) {
    || (c.n != 0 && |batch| == c.n)
    || (|after| < |all| && cost + Costs(c, batch) + Cost(c, all[|after|]) >= c.s)
  }

  /** Every batch before the last, and the last one too while the input is not done, is Full. */
  ghost predicate Packed(u: Setup, all: seq<Token>, batches: seq<seq<Token>>, done: bool) {
    forall i :: 0 <= i < |batches| && (i < |batches| - 1 || !done) ==> Full(u.c, u.cost, all, batches[i], Flat(batches[..i + 1]))
  }

  /** A batch closed before the input was done is Full. */
  lemma Closed(c: Limits, cost: int, all: seq<Token>, flat: seq<Token>, data0: Option<seq<char>>, rest0: seq<Token>,
               batch: seq<Token>, data: Option<seq<char>>, rest: seq<Token>, stopped: bool)
    requires Place(c, all, flat, data0, rest0, false)
    requires BatchEnd(c, cost, Pending(c, data0) + rest0, batch, data, rest, false, stopped)
    ensures Full(c, cost, all, batch, flat + batch)
  {
    if data.Some? {
      var w := WordsOf(c, data.value);
      assert Pending(c, data) == w;
      assert all == flat + (batch + w + rest) == (flat + batch) + (w + rest);
      assert all[|flat + batch|] == w[0];
    }
  }

  /** One more batch, Full unless the input is done, keeps the batches Packed. */
  lemma PackedAppend(u: Setup, all: seq<Token>, batches: seq<seq<Token>>, batch: seq<Token>, done: bool)
    requires Packed(u, all, batches, false)
    requires !done ==> Full(u.c, u.cost, all, batch, Flat(batches) + batch)
    ensures Packed(u, all, batches + [batch], done)
  {
    var bs := batches + [batch];
    forall i | 0 <= i < |bs| && (i < |bs| - 1 || !done)
      ensures Full(u.c, u.cost, all, bs[i], Flat(bs[..i + 1]))
    {
      if i < |batches| {
        assert bs[..i + 1] == batches[..i + 1];
      } else {
        assert bs[..i + 1] == bs;
        FlatAppend(batches, batch);
      }
    }
  }

  /** The last command line so far did not end xargs. */
  predicate Going(events: seq<Event>) {
    events != [] ==> !(events[|events| - 1].Ran? && Stops(events[|events| - 1].status))
  }

  /**
   * What the command lines so far have done: line i is the command and
   * batch i, run or refused as the oracles say; every batch fits -n and
   * TT.s; with -r none is empty, and an empty one is the last, after a
   * loop that ran nothing; the exit value follows the children's statuses;
   * only the last line may have ended xargs.
   */
  ghost predicate Log(u: Setup, answer: nat -> bool, child: nat -> Status, events: seq<Event>, batches: seq<seq<Token>>,
                      exitval: int, forked: bool, done: bool) {
    Lines(u, answer, child, events, batches, done) && Exits(events, exitval, forked)
  }

  /** The command lines and their batches (see Log). */
  ghost predicate Lines(u: Setup, answer: nat -> bool, child: nat -> Status, events: seq<Event>, batches: seq<seq<Token>>, done: bool) {
    && |events| == |batches|
    && (forall i :: 0 <= i < |events| ==> events[i] == EventFor(i, u.prefix + batches[i], u.pFlag, answer, child))
    && (forall i :: 0 <= i < |batches| ==> u.cost + Costs(u.c, batches[i]) < u.c.s && (u.c.n == 0 || |batches[i]| <= u.c.n))
    && (u.rFlag ==> forall i :: 0 <= i < |batches| ==> batches[i] != [])
    && (forall i :: 0 <= i < |batches| && batches[i] == [] ==> done && i == |batches| - 1 && Statuses(events[..i]) == [])
    && (done && !u.rFlag ==> events != [])
  }

  /** The exit value and whether a child ran (see Log). */
  ghost predicate Exits(events: seq<Event>, exitval: int, forked: bool) {
    && forked == (Statuses(events) != [])
    && exitval == ExitAfter(Statuses(events))
    && (forall i :: 0 <= i < |events| - 1 ==> !(events[i].Ran? && Stops(events[i].status)))
  }

  /** One more command line keeps the log. */
  lemma LogAppend(u: Setup, answer: nat -> bool, child: nat -> Status, events: seq<Event>, batches: seq<seq<Token>>,
                  exitval: int, forked: bool, done: bool, batch: seq<Token>, e: Event, exitval': int)
    requires Log(u, answer, child, events, batches, exitval, forked, false) && Going(events)
    requires u.cost + Costs(u.c, batch) < u.c.s && (u.c.n == 0 || |batch| <= u.c.n)
    requires batch == [] ==> done && !u.rFlag && !forked
    requires e == EventFor(|events|, u.prefix + batch, u.pFlag, answer, child)
    requires exitval' == if e.Ran? then Classify(e.status, exitval).exitval else exitval
    ensures Log(u, answer, child, events + [e], batches + [batch], exitval', forked || e.Ran?, done)
  {
    LinesAppend(u, answer, child, events, batches, done, batch, e, forked);
    ExitsAppend(events, exitval, forked, e, exitval');
  }

  lemma LinesAppend(u: Setup, answer: nat -> bool, child: nat -> Status, events: seq<Event>, batches: seq<seq<Token>>,
                    done: bool, batch: seq<Token>, e: Event, forked: bool)
    requires Lines(u, answer, child, events, batches, false) && forked == (Statuses(events) != [])
    requires u.cost + Costs(u.c, batch) < u.c.s && (u.c.n == 0 || |batch| <= u.c.n)
    requires batch == [] ==> done && !u.rFlag && !forked
    requires e == EventFor(|events|, u.prefix + batch, u.pFlag, answer, child)
    ensures Lines(u, answer, child, events + [e], batches + [batch], done)
  {
    var evs, bs := events + [e], batches + [batch];
    assert evs[..|events|] == events;
    assert forall i :: 0 <= i < |batches| ==> bs[i] == batches[i] && bs[i] != [];
    forall i | 0 <= i < |evs|
      ensures evs[i] == EventFor(i, u.prefix + bs[i], u.pFlag, answer, child)
    {
      if i < |events| {
        assert evs[i] == events[i];
      }
    }
  }

  lemma ExitsAppend(events: seq<Event>, exitval: int, forked: bool, e: Event, exitval': int)
    requires Exits(events, exitval, forked) && Going(events)
    requires exitval' == if e.Ran? then Classify(e.status, exitval).exitval else exitval
    ensures Exits(events + [e], exitval', forked || e.Ran?)
  {
    ExitAfterEvent(events, e);
    var evs := events + [e];
    assert forall i :: 0 <= i < |events| ==> evs[i] == events[i];
  }

  /**
   * How a run that got past the command's own length ended: line i ran (or
   * was refused) as the command and batch i; the exit value follows the
   * children's statuses, and a child ended xargs exactly when the last
   * line's did; every batch fits -n and, with the command's bytes, stays
   * below TT.s; the batches hand out the input's arguments (all) in order up
   * to the -E word, and all of them when the input drained; with -r no batch
   * is empty, and an empty one is the last, only runs when nothing ran
   * before and once the input is over, and never precedes "argument too
   * long"; without -r a drained input ran at least one line; "argument too
   * long" means the next argument alone does not fit, while a drained input
   * had its -E word fit (EndFits); every batch but the last was closed
   * Full, with -n arguments or no room for the next; and when a child
   * stopped xargs, its batch was Full too or held the rest of the input.
   */
  ghost predicate Ended(u: Setup, answer: nat -> bool, child: nat -> Status, all: seq<Token>, ending: Ending, exitval: int, events: seq<Event>, batches: seq<seq<Token>>) {
    && ending != CommandTooLong
    && |events| == |batches|
    && (forall i :: 0 <= i < |events| ==> events[i] == EventFor(i, u.prefix + batches[i], u.pFlag, answer, child))
    && exitval == ExitAfter(Statuses(events))
    && (ending == ChildStopped) == (events != [] && events[|events| - 1].Ran? && Stops(events[|events| - 1].status))
    && (forall i :: 0 <= i < |events| - 1 ==> !(events[i].Ran? && Stops(events[i].status)))
    && (forall i :: 0 <= i < |batches| ==> u.cost + Costs(u.c, batches[i]) < u.c.s && (u.c.n == 0 || |batches[i]| <= u.c.n))
    && NoStop(u.c, Flat(batches)) && Flat(batches) <= Cut(u.c, all)
    && (ending == Drained ==> Flat(batches) == Cut(u.c, all) && EndFits(u.c, u.cost, all))
    && (ending == Drained && !u.rFlag ==> events != [])
    && (ending == ArgumentTooLong ==> Flat(batches) < all && u.cost + Cost(u.c, all[|Flat(batches)|]) >= u.c.s)
    && (u.rFlag ==> forall i :: 0 <= i < |batches| ==> batches[i] != [])
    && (forall i :: 0 <= i < |batches| && batches[i] == [] ==>
          i == |batches| - 1 && Statuses(events[..i]) == [] && ending != ArgumentTooLong && Flat(batches) == Cut(u.c, all))
    && Packed(u, all, batches, true)
    && (ending == ChildStopped ==> Packed(u, all, batches, false) || Flat(batches) == Cut(u.c, all))
  }

  /** Each way out of the batch loop leaves the run Ended. */
  lemma Finish(u: Setup, answer: nat -> bool, child: nat -> Status, all: seq<Token>, ending: Ending, exitval: int, events: seq<Event>, batches: seq<seq<Token>>,
               forked: bool, done: bool)
    requires Log(u, answer, child, events, batches, exitval, forked, done)
    requires NoStop(u.c, Flat(batches)) && Flat(batches) <= Cut(u.c, all) && ending != CommandTooLong
    requires (ending == ChildStopped) == !Going(events)
    requires ending == Drained ==> Flat(batches) == Cut(u.c, all) && (done || forked) && EndFits(u.c, u.cost, all)
    requires done ==> Flat(batches) == Cut(u.c, all) && ending != ArgumentTooLong
    requires ending == ArgumentTooLong ==> Flat(batches) < all && u.cost + Cost(u.c, all[|Flat(batches)|]) >= u.c.s
    requires Packed(u, all, batches, done)
    ensures Ended(u, answer, child, all, ending, exitval, events, batches)
  {
    if ending == Drained && !u.rFlag && !done {
      assert Statuses(events) != [];
    }
  }

  /**
   * A turn whose batch is empty runs no command line: with a leftover (the
   * next argument does not fit alone) or after a child ran, the loop ends;
   * otherwise -r was given, the input is over and the loop goes round once
   * more to leave.
   */
  lemma NoLine(u: Setup, answer: nat -> bool, child: nat -> Status, all: seq<Token>, events: seq<Event>, batches: seq<seq<Token>>,
               exitval: int, forked: bool, batch: seq<Token>, data: Option<seq<char>>, rest: seq<Token>, done: bool,
               stop: bool, ending: Ending)
    requires Log(u, answer, child, events, batches, exitval, forked, false) && Going(events) && Packed(u, all, batches, false)
    requires Place(u.c, all, Flat(batches) + batch, data, rest, done)
    requires batch == [] && (done || data.Some?) && (data.Some? || forked || u.rFlag)
    requires data.Some? ==> Flat(batches) < all && u.cost + Cost(u.c, all[|Flat(batches)|]) >= u.c.s
    requires done ==> EndFits(u.c, u.cost, all)
    requires stop == (data.Some? || forked) && ending == if data.Some? then ArgumentTooLong else Drained
    ensures stop ==> Ended(u, answer, child, all, ending, exitval, events, batches)
    ensures !stop ==> Place(u.c, all, Flat(batches), data, rest, done) && done && data.None?
    ensures !stop ==> Log(u, answer, child, events, batches, exitval, forked, done) && Packed(u, all, batches, done)
  {
    assert Flat(batches) + batch == Flat(batches);
    if stop {
      Finish(u, answer, child, all, ending, exitval, events, batches, forked, false);
    }
  }

  /**
   * When the command and all of the input's arguments fit below TT.s
   * together, only -n closes a batch: every batch but the last holds exactly
   * -n arguments. So without -n the run has at most one command line, and
   * when the input drained without -r it has exactly one, with every
   * argument before the -E word.
   */
  lemma AllFit(u: Setup, answer: nat -> bool, child: nat -> Status, all: seq<Token>, ending: Ending, exitval: int,
               events: seq<Event>, batches: seq<seq<Token>>)
    requires Ended(u, answer, child, all, ending, exitval, events, batches)
    requires u.cost + Costs(u.c, all) < u.c.s
    ensures forall i :: 0 <= i < |batches| - 1 ==> u.c.n != 0 && |batches[i]| == u.c.n
    ensures u.c.n == 0 ==> |batches| <= 1
    ensures u.c.n == 0 && ending == Drained && !u.rFlag ==> batches == [Cut(u.c, all)]
  {
    CutIsPrefix(u.c, all);
    forall i | 0 <= i < |batches| - 1
      ensures u.c.n != 0 && |batches[i]| == u.c.n
    {
      ClosedByCount(u, all, batches, i);
    }
    if |batches| > 1 {
      assert |batches[0]| == u.c.n;
    }
    if u.c.n == 0 && ending == Drained && !u.rFlag {
      assert |batches| == 1 && batches[..0] == [];
      assert Flat(batches) == batches[0];
    }
  }

  /** The arithmetic of AllFit: a batch closed for want of room would leave part of the input out of TT.s. */
  lemma ClosedByCount(u: Setup, all: seq<Token>, batches: seq<seq<Token>>, i: nat)
    requires Packed(u, all, batches, true) && Flat(batches) <= all
    requires u.cost + Costs(u.c, all) < u.c.s && i < |batches| - 1
    ensures u.c.n != 0 && |batches[i]| == u.c.n
  {
    var pre, b, after := Flat(batches[..i]), batches[i], Flat(batches[..i + 1]);
    assert batches[..i + 1][..i] == batches[..i];
    assert after == pre + b;
    FlatPrefix(batches, i + 1);
    if !(u.c.n != 0 && |b| == u.c.n) {
      var x := all[|after|];
      assert all[..|after| + 1] == all[..|after|] + [x];
      SliceCosts(u.c, all, pre, b, x);
    }
  }

  /** Arguments in a row at the front of all cost no more than all of them. */
  lemma SliceCosts(c: Limits, all: seq<Token>, pre: seq<Token>, b: seq<Token>, x: Token)
    requires pre + b + [x] <= all
    ensures Costs(c, b) + Cost(c, x) <= Costs(c, all)
  {
    var head := pre + b + [x];
    assert head == pre + (b + [x]);
    CostsAppend(c, pre, b + [x]);
    CostsAppend(c, b, [x]);
    assert [x][1..] == [];
    CostsNonNegative(c, pre);
    CostsPrefix(c, head, all);
  }

  /** The batches up to k hand out a beginning of what all of them hand out. */
  lemma {:induction false} FlatPrefix(bs: seq<seq<Token>>, k: nat)
    requires k <= |bs|
    ensures Flat(bs[..k]) <= Flat(bs)
    decreases |bs| - k
  {
    if k < |bs| {
      var init := bs[..|bs| - 1];
      assert init[..k] == bs[..k];
      FlatPrefix(init, k);
    } else {
      assert bs[..k] == bs;
    }
  }

  /**
   * Running or refusing one more command line whose child does not end
   * xargs: the log grows by it and the loop carries on from the same place.
   */
  lemma LineGoes(u: Setup, answer: nat -> bool, child: nat -> Status, all: seq<Token>, events0: seq<Event>,
                 batches0: seq<seq<Token>>, exitval0: int, forked0: bool, done: bool, batch: seq<Token>,
                 data: Option<seq<char>>, rest: seq<Token>, e: Event, exitval: int)
    requires Log(u, answer, child, events0, batches0, exitval0, forked0, false) && Going(events0)
    requires Packed(u, all, batches0, false) && (!done ==> Full(u.c, u.cost, all, batch, Flat(batches0) + batch))
    requires Place(u.c, all, Flat(batches0) + batch, data, rest, done)
    requires u.cost + Costs(u.c, batch) < u.c.s && (u.c.n == 0 || |batch| <= u.c.n)
    requires batch == [] ==> done && !u.rFlag && !forked0
    requires e == EventFor(|events0|, u.prefix + batch, u.pFlag, answer, child)
    requires exitval == if e.Ran? then Classify(e.status, exitval0).exitval else exitval0
    requires !(e.Ran? && Stops(e.status))
    ensures Place(u.c, all, Flat(batches0 + [batch]), data, rest, done)
    ensures Log(u, answer, child, events0 + [e], batches0 + [batch], exitval, forked0 || e.Ran?, done)
    ensures Packed(u, all, batches0 + [batch], done)
    ensures Going(events0 + [e])
  {
    LogAppend(u, answer, child, events0, batches0, exitval0, forked0, done, batch, e, exitval);
    FlatAppend(batches0, batch);
    PackedAppend(u, all, batches0, batch, done);
    assert (events0 + [e])[|events0|] == e;
  }

  /**
   * Running one more command line whose child's status ends xargs: the log
   * grows by it and the run ends there.
   */
  lemma LineStops(u: Setup, answer: nat -> bool, child: nat -> Status, all: seq<Token>, events0: seq<Event>,
                  batches0: seq<seq<Token>>, exitval0: int, forked0: bool, done: bool, batch: seq<Token>,
                  data: Option<seq<char>>, rest: seq<Token>, e: Event, exitval: int)
    requires Log(u, answer, child, events0, batches0, exitval0, forked0, false) && Going(events0)
    requires Packed(u, all, batches0, false) && (!done ==> Full(u.c, u.cost, all, batch, Flat(batches0) + batch))
    requires Place(u.c, all, Flat(batches0) + batch, data, rest, done)
    requires u.cost + Costs(u.c, batch) < u.c.s && (u.c.n == 0 || |batch| <= u.c.n)
    requires batch == [] ==> done && !u.rFlag && !forked0
    requires e == EventFor(|events0|, u.prefix + batch, u.pFlag, answer, child)
    requires exitval == if e.Ran? then Classify(e.status, exitval0).exitval else exitval0
    requires e.Ran? && Stops(e.status)
    ensures Ended(u, answer, child, all, ChildStopped, exitval, events0 + [e], batches0 + [batch])
  {
    var events, batches := events0 + [e], batches0 + [batch];
    LogAppend(u, answer, child, events0, batches0, exitval0, forked0, done, batch, e, exitval);
    FlatAppend(batches0, batch);
    PackedAppend(u, all, batches0, batch, done);
    assert events[|events| - 1] == e;
    Finish(u, answer, child, all, ChildStopped, exitval, events, batches, forked0 || e.Ran?, done);
  }
}
