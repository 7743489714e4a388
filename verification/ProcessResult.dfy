/**
 Results of commands and their merging. A result may be printed as soon as it is merged into a
 realtime one; `posted` says that its text has been shown already.
 */
module ProcessResult {
  import opened ExitCodes

  /** What the agent has written to its standard streams. */
  class Console {
    var out: seq<string>
    var err: seq<string>

    constructor ()
      ensures out == err == []
    {
      out, err := [], [];
    }

    /** Empty texts are not printed. */
    method Post(o: string, e: string)
      modifies this
      ensures out == old(out) + Chunk(o) && err == old(err) + Chunk(e)
    {
      if o != "" {
        out := out + [o];
      }
      if e != "" {
        err := err + [e];
      }
    }
  }

  function Chunk(text: string): seq<string> {
    if text == "" then [] else [text]
  }

  class Result {
    var code: int
    var out: string
    var err: string
    const realtime: bool
    var posted: bool

    /** A realtime result prints its own text and counts as posted from the start. */
    constructor (code: int, out: string, err: string, realtime: bool, console: Console)
      modifies console
      ensures this.code == code && this.out == out && this.err == err
      ensures this.realtime == realtime && posted == realtime
      ensures console.out == old(console.out) + if realtime then Chunk(out) else []
      ensures console.err == old(console.err) + if realtime then Chunk(err) else []
    {
      this.code, this.out, this.err := code, out, err;
      this.realtime, posted := realtime, realtime;
      new;
      if realtime {
        console.Post(out, err);
      }
    }

    /** `+=`: the larger code, the texts in order, and printing of what has not been shown. */
    method Add(other: Result, console: Console)
      requires other != this
      modifies this`code, this`out, this`err, other`posted, console
      ensures code == Max(old(code), other.code)
      ensures out == old(out) + other.out && err == old(err) + other.err
      ensures other.posted == (old(other.posted) || realtime)
      ensures console.out == old(console.out) + if realtime && !old(other.posted) then Chunk(other.out) else []
      ensures console.err == old(console.err) + if realtime && !old(other.posted) then Chunk(other.err) else []
    {
      code := Max(code, other.code);
      out := out + other.out;
      err := err + other.err;
      if realtime && !other.posted {
        console.Post(other.out, other.err);
        other.posted := true;
      }
    }
  }

  // ---------------------------------------------------------------- grouping

  /** The value of a result. */
  datatype Value = Value(code: int, out: string, err: string)

  const EMPTY: Value := Value(OK, "", "")

  function Merge(a: Value, b: Value): Value {
    Value(Max(a.code, b.code), a.out + b.out, a.err + b.err)
  }

  /** Results are merged into a fresh accumulator, and accumulators are merged again. */
  datatype Nesting = Leaf(value: Value) | Node(parts: seq<Nesting>)

  function Evaluate(n: Nesting): Value
    decreases n, 0
  {
    match n
    case Leaf(v) => v
    case Node(parts) => EvaluateAll(parts)
  }

  function EvaluateAll(parts: seq<Nesting>): Value
    decreases parts
  {
    if parts == [] then EMPTY
    else Merge(EvaluateAll(parts[..|parts| - 1]), Evaluate(parts[|parts| - 1]))
  }

  /** The leaves in order. */
  function Leaves(n: Nesting): seq<Value>
    decreases n, 0
  {
    match n
    case Leaf(v) => [v]
    case Node(parts) => LeavesAll(parts)
  }

  function LeavesAll(parts: seq<Nesting>): seq<Value>
    decreases parts
  {
    if parts == [] then []
    else LeavesAll(parts[..|parts| - 1]) + Leaves(parts[|parts| - 1])
  }

  /** Merging all values, in order, into a fresh accumulator. */
  function Flat(values: seq<Value>): Value {
    if values == [] then EMPTY
    else Merge(Flat(values[..|values| - 1]), values[|values| - 1])
  }

  lemma {:induction false} FlatAppend(a: seq<Value>, b: seq<Value>)
    ensures Flat(a + b) == Merge(Flat(a), Flat(b))
    ensures Flat(b).code >= OK
  {
    if b == [] {
      assert a + b == a;
      FlatCode(a);
    } else {
      var n := |b| - 1;
      FlatAppend(a, b[..n]);
      assert (a + b)[..|a + b| - 1] == a + b[..n];
      assert Flat(a).out + (Flat(b[..n]).out + b[n].out) == Flat(a).out + Flat(b[..n]).out + b[n].out;
      assert Flat(a).err + (Flat(b[..n]).err + b[n].err) == Flat(a).err + Flat(b[..n]).err + b[n].err;
    }
  }

  lemma {:induction false} FlatCode(values: seq<Value>)
    ensures Flat(values).code >= OK
    ensures forall v | v in values :: v.code <= Flat(values).code
    ensures Flat(values).code == OK || exists v :: v in values && v.code == Flat(values).code
  {
    if values != [] {
      var n := |values| - 1;
      FlatCode(values[..n]);
      assert values == values[..n] + [values[n]];
      assert values[n] in values;
      if Flat(values).code != OK && Flat(values).code != values[n].code {
        var v :| v in values[..n] && v.code == Flat(values).code;
        assert v in values;
      }
    }
  }

  /**
   However results are nested, the accumulator ends up with the flat merge of the leaves: the largest
   code, never below 0, and the texts in order.
   */
  lemma {:induction false} GroupingDoesNotMatter(parts: seq<Nesting>)
    ensures EvaluateAll(parts) == Flat(LeavesAll(parts))
    decreases parts
  {
    if parts != [] {
      var n := |parts| - 1;
      GroupingDoesNotMatter(parts[..n]);
      var last := Leaves(parts[n]);
      FlatAppend(LeavesAll(parts[..n]), last);
      match parts[n] {
        case Leaf(v) =>
          assert last[..0] == [];
          assert Flat(last) == Merge(EMPTY, v);
          FlatCode(LeavesAll(parts[..n]));
          assert "" + v.out == v.out && "" + v.err == v.err;
        case Node(inner) =>
          GroupingDoesNotMatter(inner);
      }
    }
  }
}
