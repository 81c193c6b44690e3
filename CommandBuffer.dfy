/**
 * The command buffer that the path compiler fills and the transform rewrites:
 * a flat sequence of numbers made of `(opcode, operand...)` records, where
 * each opcode has a fixed number of operands.
 *
 * The buffer itself is flat (`seq<real>`, or an `array<real>` once frozen);
 * `Record`, `Flatten` and `Parse` give the record view used by the proofs.
 */
module CommandBuffer {
  import opened JsMath

  /** Opcodes: moveto, lineto, cubic, quadratic, arc (centre form), close, rectangle. */
  datatype Op = M | L | C | Q | A | Z | R

  /**
   * The number stored for an opcode. The concrete codes of the runtime are
   * not part of this model; any seven distinct numbers behave the same.
   */
  function Code(op: Op): real {
    match op
    case M => 1.0
    case L => 2.0
    case C => 3.0
    case Q => 4.0
    case A => 5.0
    case Z => 6.0
    case R => 7.0
  }

  /** The opcode a stored number stands for, if any. */
  function Decode(x: real): (r: Option<Op>)
    ensures r.Some? ==> Code(r.value) == x
    ensures forall op :: Code(op) == x ==> r == Some(op)
  {
    if x == 1.0 then Some(M)
    else if x == 2.0 then Some(L)
    else if x == 3.0 then Some(C)
    else if x == 4.0 then Some(Q)
    else if x == 5.0 then Some(A)
    else if x == 6.0 then Some(Z)
    else if x == 7.0 then Some(R)
    else None
  }

  /** Operand count of each opcode. */
  function Arity(op: Op): nat {
    match op
    case M => 2
    case L => 2
    case C => 6
    case Q => 4
    case A => 8
    case Z => 0
    case R => 4
  }

  datatype Record = Record(op: Op, args: seq<real>)

  predicate ValidRecord(r: Record) {
    |r.args| == Arity(r.op)
  }

  predicate ValidRecords(recs: seq<Record>) {
    forall i :: 0 <= i < |recs| ==> ValidRecord(recs[i])
  }

  /** What `addData(op, args...)` appends: the opcode, then its operands. */
  function Encode(r: Record): (s: seq<real>)
    ensures |s| == 1 + |r.args| && s[0] == Code(r.op) && s[1..] == r.args
  {
    [Code(r.op)] + r.args
  }

  function Flatten(recs: seq<Record>): seq<real> {
    if recs == [] then [] else Encode(recs[0]) + Flatten(recs[1..])
  }

  /**
   * Reads a flat buffer as records, front to back; `None` when the buffer is
   * not a whole number of records.
   */
  function Parse(s: seq<real>): (r: Option<seq<Record>>)
    ensures r.Some? ==> ValidRecords(r.value) && Flatten(r.value) == s
    decreases |s|
  {
    if s == [] then Some([])
    else match Decode(s[0])
      case None => None
      case Some(op) =>
        if |s| < 1 + Arity(op) then None
        else match Parse(s[1 + Arity(op)..])
          case None => None
          case Some(rest) =>
            var recs := [Record(op, s[1..1 + Arity(op)])] + rest;
            assert recs[1..] == rest;
            Some(recs)
  }

  lemma {:induction false} FlattenConcat(a: seq<Record>, b: seq<Record>)
    ensures Flatten(a + b) == Flatten(a) + Flatten(b)
  {
    if a != [] {
      assert (a + b)[1..] == a[1..] + b;
      FlattenConcat(a[1..], b);
    } else {
      assert a + b == b;
    }
  }

  /** Encoding records and reading them back gives the same records. */
  lemma {:induction false} ParseFlatten(recs: seq<Record>)
    requires ValidRecords(recs)
    ensures Parse(Flatten(recs)) == Some(recs)
  {
    if recs != [] {
      var s := Flatten(recs);
      var r := recs[0];
      assert s == Encode(r) + Flatten(recs[1..]);
      assert s[1 + Arity(r.op)..] == Flatten(recs[1..]);
      assert s[1..1 + Arity(r.op)] == r.args;
      ParseFlatten(recs[1..]);
      assert [r] + recs[1..] == recs;
    }
  }

  /** Appending a complete record to a well-formed buffer keeps it well formed. */
  lemma AppendRecord(s: seq<real>, r: Record)
    requires Parse(s).Some? && ValidRecord(r)
    ensures Parse(s + Encode(r)) == Some(Parse(s).value + [r])
  {
    var recs := Parse(s).value;
    FlattenConcat(recs, [r]);
    assert Flatten([r]) == Encode(r) + Flatten([]);
    assert Flatten(recs + [r]) == s + Encode(r);
    assert ValidRecords(recs + [r]) by {
      forall i | 0 <= i < |recs + [r]| ensures ValidRecord((recs + [r])[i]) {
        if i < |recs| { assert (recs + [r])[i] == recs[i]; }
      }
    }
    ParseFlatten(recs + [r]);
  }

  /** Concatenating two well-formed buffers concatenates their records. */
  lemma ParseConcat(s: seq<real>, t: seq<real>)
    requires Parse(s).Some? && Parse(t).Some?
    ensures Parse(s + t) == Some(Parse(s).value + Parse(t).value)
  {
    FlattenConcat(Parse(s).value, Parse(t).value);
    ParseFlatten(Parse(s).value + Parse(t).value);
  }

  /** The last `|args|` slots of a flattened list are the operands of its last record. */
  lemma LastRecordSlots(recs: seq<Record>, j: nat)
    requires recs != [] && j < |recs[|recs| - 1].args|
    ensures var s, last := Flatten(recs), recs[|recs| - 1];
            |last.args| < |s| && s[|s| - |last.args| + j] == last.args[j]
  {
    var n := |recs|;
    var last := recs[n - 1];
    var front := Flatten(recs[..n - 1]);
    FlattenConcat(recs[..n - 1], [last]);
    assert recs[..n - 1] + [last] == recs;
    assert Flatten([last]) == Encode(last) + Flatten([]);
    var s := Flatten(recs);
    assert s == front + Encode(last);
    assert s[|s| - |last.args| + j] == Encode(last)[1 + j];
  }

  /** The opcode of the final record, if the buffer has one. */
  function LastOp(s: seq<real>): Option<Op>
    requires Parse(s).Some?
  {
    var recs := Parse(s).value;
    if recs == [] then None else Some(recs[|recs| - 1].op)
  }

  /** Marks the opcode slots of a buffer: true at the start of each record. */
  function OpcodeMask(recs: seq<Record>): (mask: seq<bool>)
    ensures |mask| == |Flatten(recs)|
  {
    if recs == [] then []
    else [true] + seq(|recs[0].args|, _ => false) + OpcodeMask(recs[1..])
  }

  /** Two record lists with the same opcodes and operand counts. */
  predicate SameLayout(a: seq<Record>, b: seq<Record>) {
    |a| == |b| &&
    forall i :: 0 <= i < |a| ==> a[i].op == b[i].op && |a[i].args| == |b[i].args|
  }

  /**
   * Records with the same layout flatten to buffers of the same length whose
   * opcode slots hold the same numbers.
   */
  lemma {:induction false} SameLayoutSlots(a: seq<Record>, b: seq<Record>)
    requires SameLayout(a, b)
    ensures |Flatten(a)| == |Flatten(b)| && OpcodeMask(a) == OpcodeMask(b)
    ensures forall t :: 0 <= t < |Flatten(a)| && OpcodeMask(a)[t] ==> Flatten(a)[t] == Flatten(b)[t]
  {
    if a != [] {
      assert SameLayout(a[1..], b[1..]) by {
        forall i | 0 <= i < |a[1..]| ensures a[1..][i].op == b[1..][i].op && |a[1..][i].args| == |b[1..][i].args| {
          assert a[1..][i] == a[i + 1] && b[1..][i] == b[i + 1];
        }
      }
      SameLayoutSlots(a[1..], b[1..]);
      var k := |a[0].args|;
      forall t | 0 <= t < |Flatten(a)| ensures OpcodeMask(a)[t] ==> Flatten(a)[t] == Flatten(b)[t] {
        if t == 0 {
        } else if t <= k {
          assert OpcodeMask(a)[t] == false;
        } else {
          assert OpcodeMask(a)[t] == OpcodeMask(a[1..])[t - 1 - k];
          assert Flatten(a)[t] == Flatten(a[1..])[t - 1 - k];
          assert Flatten(b)[t] == Flatten(b[1..])[t - 1 - k];
        }
      }
    }
  }
}
