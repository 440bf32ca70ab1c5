/** The record shell every extractor shares.

    A record starts from a few seed fields with `status = "success"` and
    `error = None`.  The body of the `try` block is a straight run of field
    assignments, any of which may raise; the first exception ends the run, the
    fields assigned so far stay, and the handler sets `status` by the class of
    the exception and `error` to its message.  Every record is appended to the
    batch, whatever happened.

    The body is modelled as a sequence of steps: `Put` assigns a field and
    `Raise` is the point where a statement raised.  Steps after a `Raise` are
    never run.  The `status` and `error` keys are kept apart from the other
    fields, because no statement in the body writes them. */
module Records {
  import opened Outcomes

  /** A field value, as far as the model tells values apart. */
  datatype Value =
    | Null                            // None
    | Str(s: string)
    | Int(i: int)
    | Bool(b: bool)
    | Time(t: int)                    // a timestamp, in seconds on a common clock
    | Ratio(num: int, den: int)       // num / den, before rounding
    | Lib(token: string)              // a library object the model does not look into

  /** The outcome of an extraction. */
  datatype Status = Success | Skipped | Failed

  /** `status` as the record spells it. */
  function StatusText(s: Status): string {
    match s
    case Success => "success"
    case Skipped => "skipped"
    case Failed => "failed"
  }

  /** One record: the assigned fields, and the `status` and `error` entries. */
  datatype Record = Record(fields: map<string, Value>, status: Status, error: Option<string>)

  /** One statement of the `try` body. */
  datatype Step = Put(key: string, value: Value) | Raise(exc: Exc)

  /** The fields after a run, and the exception that stopped it, if any. */
  datatype Outcome = Outcome(fields: map<string, Value>, raised: Option<Exc>)

  /** Runs the steps in order from `fields` and stops at the first `Raise`. */
  function Run(fields: map<string, Value>, steps: seq<Step>): Outcome
    decreases |steps|
  {
    if |steps| == 0 then Outcome(fields, None)
    else match steps[0]
      case Raise(e) => Outcome(fields, Some(e))
      case Put(k, v) => Run(fields[k := v], steps[1..])
  }

  /** The index of the first `Raise`, or the number of steps when none raises. */
  function FirstRaise(steps: seq<Step>): (i: nat)
    ensures i <= |steps|
    ensures forall j :: 0 <= j < i ==> steps[j].Put?
    ensures i < |steps| ==> steps[i].Raise?
    decreases |steps|
  {
    if |steps| == 0 || steps[0].Raise? then 0 else 1 + FirstRaise(steps[1..])
  }

  /** A run raises exactly the first exception of the steps, and only when some
      step raises. */
  lemma {:induction false} RunRaisesFirst(fields: map<string, Value>, steps: seq<Step>)
    ensures Run(fields, steps).raised.None? <==> FirstRaise(steps) == |steps|
    ensures Run(fields, steps).raised.Some? ==> Run(fields, steps).raised.value == steps[FirstRaise(steps)].exc
    decreases |steps|
  {
    if |steps| > 0 && steps[0].Put? {
      RunRaisesFirst(fields[steps[0].key := steps[0].value], steps[1..]);
    }
  }

  /** A field assigned before the first exception, and not assigned again before it,
      keeps its value in the record. */
  lemma {:induction false} FieldsBeforeFailureStay(fields: map<string, Value>, steps: seq<Step>, j: nat)
    requires j < FirstRaise(steps)
    requires forall m :: j < m < FirstRaise(steps) ==> steps[m].key != steps[j].key
    ensures steps[j].key in Run(fields, steps).fields
    ensures Run(fields, steps).fields[steps[j].key] == steps[j].value
    decreases |steps|
  {
    var rest := steps[1..];
    assert FirstRaise(steps) == 1 + FirstRaise(rest);
    if j == 0 {
      NotAssignedKeeps(fields[steps[0].key := steps[0].value], rest, steps[0].key);
    } else {
      forall m | j - 1 < m < FirstRaise(rest)
        ensures rest[m].key != rest[j - 1].key
      {
        assert rest[m] == steps[m + 1];
      }
      FieldsBeforeFailureStay(fields[steps[0].key := steps[0].value], rest, j - 1);
    }
  }

  /** A field not assigned before the first exception keeps whatever the run started
      with: its seed value, or no entry at all. */
  lemma {:induction false} NotAssignedKeeps(fields: map<string, Value>, steps: seq<Step>, key: string)
    requires forall m :: 0 <= m < FirstRaise(steps) ==> steps[m].key != key
    ensures key in Run(fields, steps).fields <==> key in fields
    ensures key in fields ==> Run(fields, steps).fields[key] == fields[key]
    decreases |steps|
  {
    if |steps| > 0 && steps[0].Put? {
      var rest := steps[1..];
      forall m | 0 <= m < FirstRaise(rest)
        ensures rest[m].key != key
      {
        assert rest[m] == steps[m + 1];
      }
      NotAssignedKeeps(fields[steps[0].key := steps[0].value], rest, key);
    }
  }

  /** The fields of a record are the seed's and those assigned before the first
      exception; a field assigned only after it is absent. */
  lemma {:induction false} FieldsAreAssignedOrSeeded(fields: map<string, Value>, steps: seq<Step>, key: string)
    ensures key in Run(fields, steps).fields <==>
            key in fields || exists m :: 0 <= m < FirstRaise(steps) && steps[m].key == key
    decreases |steps|
  {
    if |steps| > 0 && steps[0].Put? {
      var rest := steps[1..];
      FieldsAreAssignedOrSeeded(fields[steps[0].key := steps[0].value], rest, key);
      if exists m :: 0 <= m < FirstRaise(rest) && rest[m].key == key {
        var m :| 0 <= m < FirstRaise(rest) && rest[m].key == key;
        assert steps[m + 1].key == key;
      }
      if exists m :: 0 <= m < FirstRaise(steps) && steps[m].key == key {
        var m :| 0 <= m < FirstRaise(steps) && steps[m].key == key;
        if m > 0 {
          assert rest[m - 1].key == key;
        }
      }
    }
  }

  /** Running two stretches of steps: the second runs only if the first did not raise. */
  lemma {:induction false} RunAppend(fields: map<string, Value>, a: seq<Step>, b: seq<Step>)
    ensures Run(fields, a + b) ==
            if Run(fields, a).raised.Some? then Run(fields, a) else Run(Run(fields, a).fields, b)
    decreases |a|
  {
    if |a| > 0 {
      assert (a + b)[0] == a[0];
      if a[0].Put? {
        assert (a + b)[1..] == a[1..] + b;
        RunAppend(fields[a[0].key := a[0].value], a[1..], b);
      }
    } else {
      assert a + b == b;
    }
  }

  /** No step raises. */
  predicate AllPuts(steps: seq<Step>) {
    forall m :: 0 <= m < |steps| ==> steps[m].Put?
  }

  /** No step assigns `key`. */
  predicate Untouched(steps: seq<Step>, key: string) {
    forall m :: 0 <= m < |steps| && steps[m].Put? ==> steps[m].key != key
  }

  /** Steps that never raise run to the end. */
  lemma {:induction false} AllPutsRunToEnd(steps: seq<Step>)
    requires AllPuts(steps)
    ensures FirstRaise(steps) == |steps|
    decreases |steps|
  {
    if |steps| > 0 {
      AllPutsRunToEnd(steps[1..]);
    }
  }

  /** A field assigned and then left alone holds the assigned value at the end. */
  lemma LastAssignmentWins(fields: map<string, Value>, key: string, v: Value, rest: seq<Step>)
    requires Untouched(rest, key)
    ensures key in Run(fields, [Put(key, v)] + rest).fields
    ensures Run(fields, [Put(key, v)] + rest).fields[key] == v
  {
    var steps := [Put(key, v)] + rest;
    assert steps[1..] == rest;
    NotAssignedKeeps(fields[key := v], rest, key);
  }

  /** One `meta[key] = value` of a block. */
  type Assignment = (string, Value)

  /** Some assignment of the block is to `key`. */
  predicate Sets(block: seq<Assignment>, key: string) {
    exists i :: 0 <= i < |block| && block[i].0 == key
  }

  /** A block of plain assignments, run in order. */
  function Assign(block: seq<Assignment>): (steps: seq<Step>)
    ensures |steps| == |block|
    ensures forall i :: 0 <= i < |block| ==> steps[i] == Put(block[i].0, block[i].1)
    ensures AllPuts(steps)
  {
    seq(|block|, i requires 0 <= i < |block| => Put(block[i].0, block[i].1))
  }

  /** Two blocks of assignments run one after the other. */
  lemma AssignAppend(a: seq<Assignment>, b: seq<Assignment>)
    ensures Assign(a + b) == Assign(a) + Assign(b)
  {
  }

  /** After a block of assignments, the run has not raised and a key holds the
      value of its last assignment in the block. */
  lemma AssignedValue(fields: map<string, Value>, a: seq<Assignment>, key: string, v: Value, b: seq<Assignment>)
    requires !Sets(b, key)
    ensures Run(fields, Assign(a + [(key, v)] + b)).raised.None?
    ensures key in Run(fields, Assign(a + [(key, v)] + b)).fields
    ensures Run(fields, Assign(a + [(key, v)] + b)).fields[key] == v
  {
    var steps := Assign(a + [(key, v)] + b);
    AssignAppend(a, [(key, v)] + b);
    assert a + [(key, v)] + b == a + ([(key, v)] + b);
    AssignAppend([(key, v)], b);
    assert Assign([(key, v)]) == [Put(key, v)];
    RunAppend(fields, Assign(a), [Put(key, v)] + Assign(b));
    AllPutsRunToEnd(Assign(a));
    RunRaisesFirst(fields, Assign(a));
    var mid := Run(fields, Assign(a)).fields;
    LastAssignmentWins(mid, key, v, Assign(b));
    AllPutsRunToEnd(steps);
    RunRaisesFirst(fields, steps);
  }

  /** Assignments followed by a raise: the run stops there with the assigned fields. */
  lemma RunPutsThenRaise(fields: map<string, Value>, puts: seq<Step>, e: Exc, rest: seq<Step>)
    requires AllPuts(puts)
    ensures FirstRaise(puts + [Raise(e)] + rest) == |puts|
    ensures Run(fields, puts + [Raise(e)] + rest) == Outcome(Run(fields, puts).fields, Some(e))
  {
    AllPutsRunToEnd(puts);
    RunRaisesFirst(fields, puts);
    var steps := puts + [Raise(e)] + rest;
    assert steps == puts + ([Raise(e)] + rest);
    RunAppend(fields, puts, [Raise(e)] + rest);
    FirstRaiseAfterPuts(puts, [Raise(e)] + rest);
  }

  /** Assignments followed by a raise that ends the body. */
  lemma RunPutsThenRaiseEnd(fields: map<string, Value>, puts: seq<Step>, e: Exc)
    requires AllPuts(puts)
    ensures FirstRaise(puts + [Raise(e)]) == |puts|
    ensures Run(fields, puts + [Raise(e)]) == Outcome(Run(fields, puts).fields, Some(e))
  {
    assert puts + [Raise(e)] == puts + [Raise(e)] + [];
    RunPutsThenRaise(fields, puts, e, []);
  }

  /** Two blocks run in turn set a key exactly when one of them does. */
  lemma SetsAppend(a: seq<Assignment>, b: seq<Assignment>, key: string)
    ensures Sets(a + b, key) <==> Sets(a, key) || Sets(b, key)
  {
    if Sets(a + b, key) {
      var i :| 0 <= i < |a + b| && (a + b)[i].0 == key;
      if i >= |a| {
        assert b[i - |a|].0 == key;
      }
    }
    if Sets(a, key) {
      var i :| 0 <= i < |a| && a[i].0 == key;
      assert (a + b)[i].0 == key;
    }
    if Sets(b, key) {
      var i :| 0 <= i < |b| && b[i].0 == key;
      assert (a + b)[|a| + i].0 == key;
    }
  }

  /** A field assigned from a call that may raise: the assignment of the call's
      value, or the point where it raised. */
  function Fetch(key: string, r: Result<Value>): seq<Step> {
    match r
    case Ok(v) => Assign([(key, v)])
    case Err(e) => [Raise(e)]
  }

  /** The first raise after a stretch without one is found in what follows. */
  lemma {:induction false} FirstRaiseAfterPuts(a: seq<Step>, b: seq<Step>)
    requires AllPuts(a)
    ensures FirstRaise(a + b) == |a| + FirstRaise(b)
    decreases |a|
  {
    if |a| > 0 {
      assert (a + b)[0] == a[0];
      assert (a + b)[1..] == a[1..] + b;
      FirstRaiseAfterPuts(a[1..], b);
    } else {
      assert a + b == b;
    }
  }

  /** The four extractors, told apart where their handlers differ. */
  datatype Extractor = ImageExtractor | GdbLayerExtractor | ShapefileExtractor | TableExtractor

  /** The spatial extractors. */
  predicate IsSpatial(x: Extractor) {
    x == GdbLayerExtractor || x == ShapefileExtractor
  }

  /** The `except` clauses of each extractor: an exception skips an item exactly
      when the extractor catches its class in the first clause (DriverError or
      PermissionError for the spatial ones, PermissionError for the tabular one,
      nothing for images); every other exception fails the item. */
  function Classify(x: Extractor, kind: ExcKind): (s: Status)
    ensures s != Success
    ensures s == Skipped <==>
            (IsSpatial(x) && (kind == DriverError || kind == PermissionError)) ||
            (x == TableExtractor && kind == PermissionError)
    ensures s == Failed <==>
            x == ImageExtractor ||
            (IsSpatial(x) && kind != DriverError && kind != PermissionError) ||
            (x == TableExtractor && kind != PermissionError)
  {
    match x
    case ImageExtractor => Failed
    case GdbLayerExtractor | ShapefileExtractor =>
      if kind == DriverError || kind == PermissionError then Skipped else Failed
    case TableExtractor => if kind == PermissionError then Skipped else Failed
  }

  /** A record once its body has run: the seed fields with `status` success and
      `error` None, then the handler's status and `str(e)` if the body raised. */
  function Finish(x: Extractor, seed: map<string, Value>, steps: seq<Step>): (r: Record)
    ensures r.status == Success <==> FirstRaise(steps) == |steps|
    ensures r.status != Success ==>
              var e := steps[FirstRaise(steps)].exc;
              r.status == Classify(x, e.kind) && r.error == Some(e.message)
    ensures r.status == Success ==> r.error == None
  {
    RunRaisesFirst(seed, steps);
    var o := Run(seed, steps);
    match o.raised
    case None => Record(o.fields, Success, None)
    case Some(e) => Record(o.fields, Classify(x, e.kind), Some(e.message))
  }

  /** A run that does not raise gives a successful record of the fields it set. */
  lemma FinishWithoutRaise(x: Extractor, seed: map<string, Value>, steps: seq<Step>)
    requires Run(seed, steps).raised.None?
    ensures Finish(x, seed, steps) == Record(Run(seed, steps).fields, Success, None)
  {
  }

  /** The loop of every extractor: one record per item, in item order, whatever
      the item's outcome. */
  method Accumulate<T>(items: seq<T>, process: T -> Record) returns (records: seq<Record>)
    ensures |records| == |items|
    ensures forall i :: 0 <= i < |items| ==> records[i] == process(items[i])
  {
    records := [];
    for i := 0 to |items|
      invariant |records| == i
      invariant forall k :: 0 <= k < i ==> records[k] == process(items[k])
    {
      records := records + [process(items[i])];
    }
  }
}
