/** Multi-row INSERT statements: how the writers render them and how the server reads them.
    adapters/postgres/outbox_writer.go:190-276 and journaling_outbox_writer.go:181-228.
    Everything between the fixed head of the statement and its end is a sequence of tokens. */
module Statements {
  import opened Options

  datatype Value = Text(text: string) | Blob(bytes: seq<int>) | Stamp(at: int) | Null

  type Row = seq<Value>

  datatype Token = Open | Shut | Comma | Param(n: nat)

  const MaxParams := 65535

  // ------------------------------------------------------------------
  // The server's side
  // ------------------------------------------------------------------

  /** Reader of a VALUES list: the tuples of parameter numbers so far, and what may follow. */
  datatype Reader =
    | Start
    | Within(tuples: seq<seq<nat>>, open: seq<nat>, wantsParam: bool)
    | Between(tuples: seq<seq<nat>>)    // after a tuple
    | Awaiting(tuples: seq<seq<nat>>)   // after a comma between tuples
    | Malformed

  function Next(r: Reader, t: Token): Reader {
    match (r, t)
    case (Start, Open) => Within([], [], true)
    case (Awaiting(tuples), Open) => Within(tuples, [], true)
    case (Within(tuples, open, wants), Param(n)) => if wants then Within(tuples, open + [n], false) else Malformed
    case (Within(tuples, open, wants), Comma) => if wants then Malformed else Within(tuples, open, true)
    case (Within(tuples, open, wants), Shut) => if wants then Malformed else Between(tuples + [open])
    case (Between(tuples), Comma) => Awaiting(tuples)
    case (_, _) => Malformed
  }

  function Read(text: seq<Token>): Reader {
    if text == [] then Start else Next(Read(text[..|text| - 1]), text[|text| - 1])
  }

  predicate InRange(tuples: seq<seq<nat>>, n: nat) {
    forall i, j | 0 <= i < |tuples| && 0 <= j < |tuples[i]| :: 1 <= tuples[i][j] <= n
  }

  function BindOne(params: seq<nat>, args: seq<Value>): Row
    requires forall j | 0 <= j < |params| :: 1 <= params[j] <= |args|
  {
    seq(|params|, j requires 0 <= j < |params| => args[params[j] - 1])
  }

  function Bind(tuples: seq<seq<nat>>, args: seq<Value>): seq<Row>
    requires InRange(tuples, |args|)
  {
    seq(|tuples|, i requires 0 <= i < |tuples| => BindOne(tuples[i], args))
  }

  /** The rows a statement proposes, unless it is malformed or has too many parameters. */
  function Proposed(text: seq<Token>, args: seq<Value>): Option<seq<Row>> {
    var r := Read(text);
    if |args| > MaxParams || !r.Between? || !InRange(r.tuples, |args|) then None
    else Some(Bind(r.tuples, args))
  }

  // ------------------------------------------------------------------
  // The writers' side
  // ------------------------------------------------------------------

  /** ($base+1, …, $base+cols) */
  method AppendPlaceholders(sb: seq<Token>, base: nat, cols: nat) returns (out: seq<Token>)
    requires cols > 0
    ensures out == sb + Tuple(base, cols)
  {
    out := sb + [Open];
    for j := 0 to cols
      invariant out == sb + [Open] + Params(base, j)
    {
      if j > 0 {
        out := out + [Comma];
      }
      out := out + [Param(base + j + 1)];
    }
    out := out + [Shut];
  }

  function Params(base: nat, n: nat): seq<Token> {
    if n == 0 then []
    else if n == 1 then [Param(base + 1)]
    else Params(base, n - 1) + [Comma, Param(base + n)]
  }

  function Tuple(base: nat, cols: nat): seq<Token> {
    [Open] + Params(base, cols) + [Shut]
  }

  function Tuples(n: nat, cols: nat): seq<Token> {
    if n == 0 then []
    else (if n == 1 then [] else Tuples(n - 1, cols) + [Comma]) + Tuple((n - 1) * cols, cols)
  }

  /** Renders the statement for rows of `cols` values each. */
  method Render(rows: seq<Row>, cols: nat) returns (text: seq<Token>, args: seq<Value>)
    requires cols > 0 && forall i | 0 <= i < |rows| :: |rows[i]| == cols
    ensures text == Tuples(|rows|, cols) && args == Flat(rows)
  {
    text, args := [], [];
    for i := 0 to |rows|
      invariant text == Tuples(i, cols) && args == Flat(rows[..i])
    {
      if i > 0 {
        text := text + [Comma];
      }
      text := AppendPlaceholders(text, i * cols, cols);
      args := args + rows[i];
      assert rows[..i + 1][..i] == rows[..i];
    }
    assert rows[..|rows|] == rows;
  }

  function Flat(rows: seq<Row>): seq<Value> {
    if rows == [] then [] else Flat(rows[..|rows| - 1]) + rows[|rows| - 1]
  }

  // ------------------------------------------------------------------
  // What is rendered is what is read
  // ------------------------------------------------------------------

  function From(base: nat, n: nat): seq<nat> {
    seq(n, j => base + j + 1)
  }

  /** Parameter j of row i has number i*cols + j + 1. */
  function AllNumbers(n: nat, cols: nat): seq<seq<nat>> {
    seq(n, i requires 0 <= i < n => From(i * cols, cols))
  }

  lemma OneMoreRow(n: nat, cols: nat)
    requires n > 0
    ensures AllNumbers(n, cols) == AllNumbers(n - 1, cols) + [From((n - 1) * cols, cols)]
  {
  }

  lemma ReadAppend(text: seq<Token>, t: Token)
    ensures Read(text + [t]) == Next(Read(text), t)
  {
    assert (text + [t])[..|text|] == text;
  }

  lemma {:induction false} ReadParams(pre: seq<Token>, tuples: seq<seq<nat>>, base: nat, n: nat)
    requires Read(pre) == Within(tuples, [], true) && n > 0
    ensures Read(pre + Params(base, n)) == Within(tuples, From(base, n), false)
    decreases n
  {
    if n == 1 {
      ReadAppend(pre, Param(base + 1));
    } else {
      ReadParams(pre, tuples, base, n - 1);
      var text := pre + Params(base, n - 1);
      ReadOneMore(text, tuples, From(base, n - 1), base + n);
      assert pre + Params(base, n) == text + [Comma] + [Param(base + n)];
      assert From(base, n) == From(base, n - 1) + [base + n];
    }
  }

  lemma ReadOneMore(text: seq<Token>, tuples: seq<seq<nat>>, tuple: seq<nat>, k: nat)
    requires Read(text) == Within(tuples, tuple, false)
    ensures Read(text + [Comma] + [Param(k)]) == Within(tuples, tuple + [k], false)
  {
    ReadAppend(text, Comma);
    ReadAppend(text + [Comma], Param(k));
  }

  lemma ReadTuple(pre: seq<Token>, tuples: seq<seq<nat>>, base: nat, cols: nat)
    requires (Read(pre) == Start && tuples == []) || Read(pre) == Awaiting(tuples)
    requires cols > 0
    ensures Read(pre + Tuple(base, cols)) == Between(tuples + [From(base, cols)])
  {
    ReadAppend(pre, Open);
    ReadParams(pre + [Open], tuples, base, cols);
    var text := pre + [Open] + Params(base, cols);
    ReadAppend(text, Shut);
    assert pre + Tuple(base, cols) == text + [Shut];
  }

  lemma {:induction false} ReadTuples(n: nat, cols: nat)
    requires n > 0 && cols > 0
    ensures Read(Tuples(n, cols)) == Between(AllNumbers(n, cols))
    decreases n
  {
    var base := (n - 1) * cols;
    OneMoreRow(n, cols);
    if n == 1 {
      ReadTuple([], [], base, cols);
      assert [] + Tuple(base, cols) == Tuples(n, cols);
    } else {
      ReadTuples(n - 1, cols);
      ReadAppend(Tuples(n - 1, cols), Comma);
      ReadTuple(Tuples(n - 1, cols) + [Comma], AllNumbers(n - 1, cols), base, cols);
    }
  }

  lemma {:induction false} FlatAt(rows: seq<Row>, cols: nat, i: nat, j: nat)
    requires forall k | 0 <= k < |rows| :: |rows[k]| == cols
    requires i < |rows| && j < cols
    ensures |Flat(rows)| == |rows| * cols && i * cols + j < |rows| * cols && Flat(rows)[i * cols + j] == rows[i][j]
    decreases |rows|
  {
    var init := rows[..|rows| - 1];
    FlatSize(rows, cols);
    FlatSize(init, cols);
    RowEnd(i, |rows|, cols);
    if i < |init| {
      RowEnd(i, |init|, cols);
      FlatAt(init, cols, i, j);
    }
  }

  lemma {:induction false} FlatSize(rows: seq<Row>, cols: nat)
    requires forall k | 0 <= k < |rows| :: |rows[k]| == cols
    ensures |Flat(rows)| == |rows| * cols
    decreases |rows|
  {
    if rows != [] {
      FlatSize(rows[..|rows| - 1], cols);
    }
  }

  lemma {:induction false} RowEnd(i: nat, n: nat, cols: nat)
    requires i < n
    ensures 0 <= i * cols && i * cols + cols <= n * cols
    decreases n
  {
    assert n * cols == (n - 1) * cols + cols;
    if i < n - 1 {
      RowEnd(i, n - 1, cols);
    }
  }

  lemma NumbersInRange(n: nat, cols: nat)
    ensures InRange(AllNumbers(n, cols), n * cols)
  {
    var all := AllNumbers(n, cols);
    forall i, j | 0 <= i < |all| && 0 <= j < |all[i]| ensures 1 <= all[i][j] <= n * cols {
      RowEnd(i, n, cols);
      var base := i * cols;
      assert all[i] == From(base, cols) && all[i][j] == base + j + 1;
    }
  }

  /** The numbers of the i-th tuple pick the i-th row out of the arguments. */
  lemma RowIsBound(rows: seq<Row>, cols: nat, i: nat)
    requires i < |rows| && forall k | 0 <= k < |rows| :: |rows[k]| == cols
    requires InRange(AllNumbers(|rows|, cols), |Flat(rows)|)
    ensures BindOne(AllNumbers(|rows|, cols)[i], Flat(rows)) == rows[i]
  {
    var numbers, args := AllNumbers(|rows|, cols)[i], Flat(rows);
    forall j | 0 <= j < cols ensures args[numbers[j] - 1] == rows[i][j] {
      FlatAt(rows, cols, i, j);
    }
  }

  /** A rendered statement of at most 65535 parameters proposes exactly the rows it was made from. */
  lemma RenderedIsRead(rows: seq<Row>, cols: nat)
    requires rows != [] && cols > 0 && forall i | 0 <= i < |rows| :: |rows[i]| == cols
    requires |rows| * cols <= MaxParams
    ensures Proposed(Tuples(|rows|, cols), Flat(rows)) == Some(rows)
  {
    ReadTuples(|rows|, cols);
    FlatSize(rows, cols);
    NumbersInRange(|rows|, cols);
    var all, args := AllNumbers(|rows|, cols), Flat(rows);
    forall i | 0 <= i < |rows| ensures BindOne(all[i], args) == rows[i] {
      RowIsBound(rows, cols, i);
    }
    assert Bind(all, args) == rows;
  }
}
