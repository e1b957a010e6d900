/**
  The asynchronous log.  Front-end threads append lines under the mutex; the back-end
  thread swaps the filled buffers out under the mutex and writes them outside it.  Each
  method below is one stretch of code that no other thread can observe half done: a
  critical section, or a step on data only the back end owns.

  A buffer is modelled by the bytes it holds, a moved-from unique_ptr by None.
 */
module AsyncLogging {
  import opened Basics

  /** Where the back end stands in its loop. */
  datatype Stage = Top | Writing(k: nat) | Written

  datatype Event = Line(line: string) | Backend

  /** The bytes in order: written, swapped out, filled, and being filled. */
  function Stream(output: string, unwritten: seq<string>, buffers: seq<string>, current: string): string {
    output + Concat(unwritten) + Concat(buffers) + current
  }

  lemma StreamAppend(o: string, u: seq<string>, b: seq<string>, c: string, line: string)
    ensures Stream(o, u, b, c + line) == Stream(o, u, b, c) + line
  {
  }

  lemma StreamRoll(o: string, u: seq<string>, b: seq<string>, c: string, line: string)
    ensures Stream(o, u, b + [c], line) == Stream(o, u, b, c) + line
  {
    ConcatAppend(b, [c]);
    assert Concat([c]) == c;
    hide Concat;
  }

  lemma StreamSwap(o: string, b: seq<string>)
    ensures Stream(o, b, [], "") == Stream(o, [], b, "")
  {
  }

  lemma StreamWrite(o: string, u: seq<string>, b: seq<string>, c: string)
    requires u != []
    ensures Stream(o + u[0], u[1..], b, c) == Stream(o, u, b, c)
  {
    assert Concat(u) == u[0] + Concat(u[1..]);
    hide Concat;
  }

  /** The lines a buffer of this size has room for, in order: LogBuffer drops the others. */
  function Accepted(events: seq<Event>, size: nat): string {
    if events == [] then ""
    else Accepted(events[..|events| - 1], size) + Kept(events[|events| - 1], size)
  }

  function Kept(e: Event, size: nat): string {
    if e.Line? && |e.line| < size then e.line else ""
  }

  lemma AcceptedNothing(size: nat)
    ensures Accepted([], size) == ""
  {
  }

  lemma AcceptedStep(events: seq<Event>, i: nat, size: nat)
    requires i < |events|
    ensures Accepted(events[..i + 1], size) == Accepted(events[..i], size) + Kept(events[i], size)
    ensures events[i].Backend? ==> Accepted(events[..i + 1], size) == Accepted(events[..i], size)
  {
    assert events[..i + 1][..i] == events[..i];
  }

  class Logger {
    const size: nat
    var current: string
    var next: Option<string>
    var buffers: seq<string>
    var backup1: Option<string>
    var backup2: Option<string>
    var toWrite: seq<string>
    var stage: Stage
    var output: string
    ghost var appended: string

    /** The buffers swapped out and not yet written. */
    ghost function Unwritten(): seq<string>
      reads this
    {
      if stage.Writing? && stage.k <= |toWrite| then toWrite[stage.k..] else []
    }

    /** Every appended byte is in exactly one place, and in order. */
    ghost predicate Conserved()
      reads this
    {
      appended == Stream(output, Unwritten(), buffers, current)
    }

    ghost predicate Valid()
      reads this
    {
      && Conserved()
      && |current| <= size
      && (next.Some? ==> next.value == "")
      && (next.None? ==> buffers != [])
      && (backup1.Some? ==> backup1.value == "") && (backup2.Some? ==> backup2.value == "")
      && match stage
         case Top => backup1.Some? && backup2.Some? && toWrite == []
         case Writing(k) => backup1.None? && k <= |toWrite| && Refillable()
         case Written => backup1.None? && Refillable()
    }

    /** There is a written buffer for every backup that was given away. */
    ghost predicate Refillable()
      reads this
    {
      |toWrite| >= 1 && (backup2.None? ==> |toWrite| >= 2)
    }

    constructor (size: nat)
      ensures Valid() && this.size == size && stage == Top && appended == "" && output == ""
    {
      this.size := size;
      current, next, buffers := "", Some(""), [];
      backup1, backup2, toWrite, stage := Some(""), Some(""), [], Top;
      output, appended := "", "";
    }

    /** Any front-end thread; the whole body runs under the mutex. */
    method Append(line: string)
      requires Valid()
      modifies this`current, this`next, this`buffers, this`appended
      ensures Valid()
      ensures appended == old(appended) + Kept(Line(line), size)
    {
      ghost var kept := Kept(Line(line), size);
      hide Stream;
      if size - |current| > |line| {
        StreamAppend(output, Unwritten(), buffers, current, line);
        current := current + line;
      } else {
        StreamRoll(output, Unwritten(), buffers, current, kept);
        buffers := buffers + [current];
        match next {
          case Some(buffer) => current, next := buffer, None;
          case None => current := "";
        }
        if size - |current| > |line| {
          current := current + line;
        }
        assert current == kept;
      }
      appended := appended + kept;
    }

    /** The back end's critical section, after any wait for work. */
    method SwapOut()
      requires Valid() && stage == Top
      modifies this
      ensures Valid() && stage == Writing(0) && appended == old(appended) && output == old(output)
      ensures buffers == [] && current == "" && toWrite == old(buffers) + [old(current)]
      ensures next.Some?
    {
      hide Stream;
      StreamRoll(output, [], buffers, current, "");
      StreamSwap(output, buffers + [current]);
      buffers := buffers + [current];
      current, backup1 := backup1.value, None;
      buffers, toWrite := [], buffers;
      if next.None? {
        next, backup2 := backup2, None;
      }
      stage := Writing(0);
      assert toWrite[0..] == toWrite;
    }

    /** One turn of the loop that writes the swapped buffers to the file. */
    method WriteOne()
      requires Valid() && stage.Writing?
      modifies this`output, this`stage
      ensures Valid()
      ensures stage == if old(stage).k < |toWrite| then Writing(old(stage).k + 1) else Written
      ensures output == old(output) + if old(stage).k < |toWrite| then toWrite[old(stage).k] else ""
    {
      if stage.k < |toWrite| {
        hide Stream;
        ghost var rest := toWrite[stage.k..];
        StreamWrite(output, rest, buffers, current);
        assert rest[1..] == toWrite[stage.k + 1..];
        output := output + toWrite[stage.k];
        stage := Writing(stage.k + 1);
      } else {
        stage := Written;
      }
    }

    /** Getting the backups back from the written buffers: neither search comes up empty. */
    method Refill()
      requires Valid() && stage == Written
      modifies this`toWrite, this`backup1, this`backup2, this`stage
      ensures Valid() && stage == Top
    {
      if |toWrite| > 2 {
        toWrite := toWrite[..2];
      }
      if backup1.None? {
        assert toWrite != [];
        backup1, toWrite := Some(toWrite[|toWrite| - 1]), toWrite[..|toWrite| - 1];
        backup1 := Some("");
      }
      if backup2.None? {
        assert toWrite != [];
        backup2, toWrite := Some(toWrite[|toWrite| - 1]), toWrite[..|toWrite| - 1];
        backup2 := Some("");
      }
      toWrite := [];
      stage := Top;
    }

    /** Whatever the back end does next. */
    method BackendStep()
      requires Valid()
      modifies this
      ensures Valid() && appended == old(appended)
    {
      match stage {
        case Top => SwapOut();
        case Writing(_) => WriteOne();
        case Written => Refill();
      }
    }

    /** One whole turn of the back end, with no appends in between, writes everything. */
    method Flush()
      requires Valid() && stage == Top
      modifies this
      ensures Valid() && stage == Top && appended == old(appended) && output == appended
    {
      SwapOut();
      while stage.Writing?
        invariant Valid() && stage != Top && appended == old(appended)
        invariant buffers == [] && current == ""
        decreases if stage.Writing? then 1 + |toWrite| - stage.k else 0
      {
        WriteOne();
      }
      Refill();
    }
  }

  /** Output is always a prefix of what was appended. */
  lemma OutputIsPrefix(log: Logger)
    requires log.Valid()
    ensures log.output <= log.appended
  {
  }

  /** Every interleaving of appends with the back end's steps: the file holds a prefix of the
      accepted lines in lock order, and the rest is still in the buffers, in order. */
  method Run(size: nat, events: seq<Event>) returns (log: Logger)
    ensures fresh(log) && log.Valid() && log.size == size
    ensures Accepted(events, size) == Stream(log.output, log.Unwritten(), log.buffers, log.current)
  {
    hide Stream, Accepted, Kept;
    log := new Logger(size);
    assert Accepted(events[..0], size) == "" by { AcceptedNothing(size); }
    for i := 0 to |events|
      invariant fresh(log) && log.Valid() && log.size == size && log.appended == Accepted(events[..i], size)
    {
      AcceptedStep(events, i, size);
      match events[i] {
        case Line(line) => log.Append(line);
        case Backend => log.BackendStep();
      }
    }
    assert events[..|events|] == events;
  }
}
