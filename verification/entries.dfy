/** Histories as the checker sees them: one call entry and one return entry per operation,
    in time order. */
module Entries {
  import opened Linearizability

  datatype Value<I, O> = Nothing | In(input: I) | Out(output: O)

  datatype Entry<I, O> = Entry(isReturn: bool, value: Value<I, O>, id: nat, time: int, clientId: int)

  /** The ids are 0..n-1 and each has a call entry followed, later, by a return entry. */
  ghost predicate WellFormed<I, O>(h: seq<Entry<I, O>>) {
    && |h| % 2 == 0
    && (forall p :: 0 <= p < |h| ==> h[p].id < |h| / 2)
    && (forall p :: 0 <= p < |h| ==> if h[p].isReturn then h[p].value.Out? else h[p].value.In?)
    && (forall p, q :: 0 <= p < q < |h| && h[p].id == h[q].id ==> !h[p].isReturn && h[q].isReturn)
    && (forall id: nat :: id < |h| / 2 ==> HasCall(h, id) && HasReturn(h, id))
  }

  ghost predicate HasCall<I, O>(h: seq<Entry<I, O>>, id: nat) {
    exists p :: 0 <= p < |h| && h[p].id == id && !h[p].isReturn
  }

  ghost predicate HasReturn<I, O>(h: seq<Entry<I, O>>, id: nat) {
    exists p :: 0 <= p < |h| && h[p].id == id && h[p].isReturn
  }

  ghost function CallAt<I, O>(h: seq<Entry<I, O>>, id: nat): (p: nat)
    requires HasCall(h, id)
    ensures p < |h| && h[p].id == id && !h[p].isReturn
  {
    var p :| 0 <= p < |h| && h[p].id == id && !h[p].isReturn;
    p
  }

  ghost function ReturnAt<I, O>(h: seq<Entry<I, O>>, id: nat): (p: nat)
    requires HasReturn(h, id)
    ensures p < |h| && h[p].id == id && h[p].isReturn
  {
    var p :| 0 <= p < |h| && h[p].id == id && h[p].isReturn;
    p
  }

  ghost function OperationAt<I, O>(h: seq<Entry<I, O>>, id: nat): Operation<I, O>
    requires WellFormed(h) && id < |h| / 2
  {
    var (p, q) := (CallAt(h, id), ReturnAt(h, id));
    Operation(h[p].clientId, h[p].value.input, p, h[q].value.output, q)
  }

  /** The operations a well-formed history describes, with the positions of their entries as
      time stamps. */
  ghost function OperationsOf<I, O>(h: seq<Entry<I, O>>): seq<Operation<I, O>>
    requires WellFormed(h)
  {
    seq(|h| / 2, id requires 0 <= id < |h| / 2 => OperationAt(h, id))
  }

  /** Every entry of a well-formed history is the call or the return of its operation. */
  lemma EntryIsCallOrReturn<I, O>(h: seq<Entry<I, O>>, p: nat)
    requires WellFormed(h) && p < |h|
    ensures h[p].id < |OperationsOf(h)|
    ensures var op := OperationsOf(h)[h[p].id];
            if h[p].isReturn then op.ret == p && h[p].value == Out(op.output)
            else op.call == p && h[p].value == In(op.input)
  {
  }

  lemma OperationEntries<I, O>(h: seq<Entry<I, O>>, id: nat)
    requires WellFormed(h) && id < |h| / 2
    ensures var op := OperationsOf(h)[id];
            && 0 <= op.call < op.ret < |h|
            && h[op.call] == h[op.call].(isReturn := false, id := id, value := In(op.input))
            && h[op.ret] == h[op.ret].(isReturn := true, id := id, value := Out(op.output))
  {
  }
}
