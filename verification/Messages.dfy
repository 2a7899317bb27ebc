/** `InferenceMessage`: headers, body and the mutations recorded for Envoy. */
module Messages {
  import opened Common
  import opened Json

  type Headers = map<string, string>

  /** The value of an `InferenceMessage`. */
  datatype Message = Message(
    headers: Headers,
    body: Object,
    mutated: Headers,
    removed: set<string>,
    bodyMutated: bool)

  const NewMessage := Message(map[], map[], map[], {}, false)

  /** One call of the message's mutation interface, the only way a plugin changes it. */
  datatype Op =
    | SetHeader(key: string, value: string)
    | RemoveHeader(key: string)
    | SetBody(body: Object)
    | SetBodyField(field: string, fieldValue: Value)
    | RemoveBodyField(field: string)

  function Apply(m: Message, op: Op): Message {
    match op
    case SetHeader(k, v) =>
      if k in m.headers && m.headers[k] == v then m
      else m.(headers := m.headers[k := v], mutated := m.mutated[k := v], removed := m.removed - {k})
    case RemoveHeader(k) =>
      if k !in m.headers then m
      else m.(headers := m.headers - {k}, mutated := m.mutated - {k}, removed := m.removed + {k})
    case SetBody(b) => m.(body := b, bodyMutated := true)
    case SetBodyField(k, v) => m.(body := m.body[k := v], bodyMutated := true)
    case RemoveBodyField(k) =>
      if k in m.body then m.(body := m.body - {k}, bodyMutated := true) else m
  }

  function ApplyAll(m: Message, ops: seq<Op>): Message
    decreases |ops|
  {
    if ops == [] then m else ApplyAll(Apply(m, ops[0]), ops[1..])
  }

  /** What Envoy does with a header mutation: drop the removed keys, overwrite or add the set ones. */
  function Mutate(original: Headers, set_: Headers, removed: set<string>): Headers {
    (original - removed) + set_
  }

  /** No key is both set and removed, and the recorded delta turns the original headers into the current ones. */
  ghost predicate Faithful(original: Headers, m: Message) {
    && m.mutated.Keys !! m.removed
    && Mutate(original, m.mutated, m.removed) == m.headers
  }

  /** Hence it does not matter whether Envoy removes or sets first. */
  lemma FaithfulInEitherOrder(original: Headers, m: Message)
    requires Faithful(original, m)
    ensures (original + m.mutated) - m.removed == m.headers
  {
    assert (original + m.mutated) - m.removed == Mutate(original, m.mutated, m.removed);
  }

  lemma SetHeaderFaithful(original: Headers, m: Message, k: string, v: string)
    requires Faithful(original, m)
    ensures Faithful(original, Apply(m, SetHeader(k, v)))
  {
    var n := Apply(m, SetHeader(k, v));
    assert Mutate(original, n.mutated, n.removed) == n.headers;
  }

  lemma RemoveHeaderFaithful(original: Headers, m: Message, k: string)
    requires Faithful(original, m)
    ensures Faithful(original, Apply(m, RemoveHeader(k)))
  {
    var n := Apply(m, RemoveHeader(k));
    assert Mutate(original, n.mutated, n.removed) == n.headers;
  }

  lemma ApplyFaithful(original: Headers, m: Message, op: Op)
    requires Faithful(original, m)
    ensures Faithful(original, Apply(m, op))
  {
    match op
    case SetHeader(k, v) => SetHeaderFaithful(original, m, k, v);
    case RemoveHeader(k) => RemoveHeaderFaithful(original, m, k);
    case _ =>
  }

  /** For every sequence of mutations the delta sent to Envoy is faithful. */
  lemma {:induction false} DeltaIsFaithful(original: Headers, m: Message, ops: seq<Op>)
    requires Faithful(original, m)
    ensures Faithful(original, ApplyAll(m, ops))
    decreases |ops|
  {
    if ops != [] {
      ApplyFaithful(original, m, ops[0]);
      DeltaIsFaithful(original, Apply(m, ops[0]), ops[1..]);
    }
  }

  /** Only the `SetBody*`/`RemoveBodyField` operations raise the flag; without it the body is untouched. */
  lemma {:induction false} UnmutatedBodyIsOriginal(m: Message, ops: seq<Op>)
    ensures !ApplyAll(m, ops).bodyMutated ==> !m.bodyMutated && ApplyAll(m, ops).body == m.body
    decreases |ops|
  {
    if ops != [] {
      UnmutatedBodyIsOriginal(Apply(m, ops[0]), ops[1..]);
    }
  }

  // ---------- the last operation decides ----------

  predicate TouchesHeader(op: Op, key: string) { (op.SetHeader? || op.RemoveHeader?) && op.key == key }

  predicate TouchesField(op: Op, key: string) {
    op.SetBody? || ((op.SetBodyField? || op.RemoveBodyField?) && op.field == key)
  }

  /** Written by this operation, a field has this value. */
  predicate WritesField(op: Op, key: string, v: Value) {
    (op.SetBody? && key in op.body && op.body[key] == v) || op == Op.SetBodyField(key, v)
  }

  /** The last operation that touches it says so. */
  ghost predicate LastSays(ops: seq<Op>, touches: Op -> bool, says: Op -> bool) {
    exists i :: LastAt(ops, touches, i) && says(ops[i])
  }

  ghost predicate LastAt(ops: seq<Op>, touches: Op -> bool, i: int) {
    0 <= i < |ops| && touches(ops[i]) && forall j :: i < j < |ops| ==> !touches(ops[j])
  }

  ghost predicate Untouched(ops: seq<Op>, touches: Op -> bool) { forall i :: 0 <= i < |ops| ==> !touches(ops[i]) }

  lemma LastSaysFront(ops: seq<Op>, touches: Op -> bool, says: Op -> bool)
    requires ops != []
    ensures Untouched(ops, touches) <==> !touches(ops[0]) && Untouched(ops[1..], touches)
    ensures LastSays(ops, touches, says) <==>
            || LastSays(ops[1..], touches, says)
            || (touches(ops[0]) && says(ops[0]) && Untouched(ops[1..], touches))
  {
    var rest := ops[1..];
    assert forall i :: 0 <= i < |rest| ==> rest[i] == ops[i + 1];
    assert forall i :: 0 < i < |ops| ==> ops[i] == rest[i - 1];
    if i :| LastAt(rest, touches, i) && says(rest[i]) {
      assert LastAt(ops, touches, i + 1);
    }
    if i :| LastAt(ops, touches, i) && says(ops[i]) {
      assert i > 0 ==> LastAt(rest, touches, i - 1);
    }
    if touches(ops[0]) && says(ops[0]) && Untouched(rest, touches) {
      assert LastAt(ops, touches, 0);
    }
  }

  /** After any operations a header has the value its last operation set; one that none touches is as before. */
  lemma {:induction false} LastHeaderOpDecides(m: Message, ops: seq<Op>, key: string, v: string)
    ensures var touches, sets := (op: Op) => TouchesHeader(op, key), (op: Op) => op == Op.SetHeader(key, v);
            var h := ApplyAll(m, ops).headers;
            key in h && h[key] == v <==>
            LastSays(ops, touches, sets) || (Untouched(ops, touches) && key in m.headers && m.headers[key] == v)
    decreases |ops|
  {
    if ops != [] {
      LastSaysFront(ops, (op: Op) => TouchesHeader(op, key), (op: Op) => op == Op.SetHeader(key, v));
      LastHeaderOpDecides(Apply(m, ops[0]), ops[1..], key, v);
    }
  }

  lemma FieldAfter(m: Message, op: Op, key: string, v: Value)
    ensures var b := Apply(m, op).body;
            key in b && b[key] == v <==>
            if TouchesField(op, key) then WritesField(op, key, v) else key in m.body && m.body[key] == v
  {
  }

  /** The same for the fields of the body, which replacing the whole body touches as well. */
  lemma {:induction false} LastFieldOpDecides(m: Message, ops: seq<Op>, key: string, v: Value)
    ensures var touches, writes := (op: Op) => TouchesField(op, key), (op: Op) => WritesField(op, key, v);
            var b := ApplyAll(m, ops).body;
            key in b && b[key] == v <==>
            LastSays(ops, touches, writes) || (Untouched(ops, touches) && key in m.body && m.body[key] == v)
    decreases |ops|
  {
    if ops != [] {
      LastSaysFront(ops, (op: Op) => TouchesField(op, key), (op: Op) => WritesField(op, key, v));
      FieldAfter(m, ops[0], key, v);
      LastFieldOpDecides(Apply(m, ops[0]), ops[1..], key, v);
    }
  }

  /** The operation finds something of the body to change. */
  predicate ChangesBody(m: Message, op: Op) {
    op.SetBody? || op.SetBodyField? || (op.RemoveBodyField? && op.field in m.body)
  }

  /** The flag is raised exactly when some operation finds something to change. */
  lemma {:induction false} FlagIffBodyChanged(m: Message, ops: seq<Op>)
    ensures ApplyAll(m, ops).bodyMutated <==>
            m.bodyMutated || exists i :: 0 <= i < |ops| && ChangesBody(ApplyAll(m, ops[..i]), ops[i])
    decreases |ops|
  {
    if ops != [] {
      var n, rest := Apply(m, ops[0]), ops[1..];
      FlagIffBodyChanged(n, rest);
      assert ops[..0] == [] && ApplyAll(m, ops[..0]) == m;
      forall i | 0 <= i < |rest| ensures ApplyAll(n, rest[..i]) == ApplyAll(m, ops[..i + 1]) && rest[i] == ops[i + 1] {
        assert ops[..i + 1][1..] == rest[..i];
      }
      if i :| 0 <= i < |rest| && ChangesBody(ApplyAll(n, rest[..i]), rest[i]) {
        assert ChangesBody(ApplyAll(m, ops[..i + 1]), ops[i + 1]);
      }
      if i :| 0 <= i < |ops| && ChangesBody(ApplyAll(m, ops[..i]), ops[i]) {
        assert i > 0 ==> ChangesBody(ApplyAll(n, rest[..i - 1]), rest[i - 1]);
      }
    }
  }

  lemma {:induction false} ApplyAllSnoc(m: Message, ops: seq<Op>, op: Op)
    ensures ApplyAll(m, ops + [op]) == Apply(ApplyAll(m, ops), op)
    decreases |ops|
  {
    if ops == [] {
      assert ops + [op] == [op];
    } else {
      assert (ops + [op])[1..] == ops[1..] + [op];
      ApplyAllSnoc(Apply(m, ops[0]), ops[1..], op);
    }
  }

  class InferenceMessage {
    var headers: Headers
    var body: Object
    var mutatedHeaders: Headers
    var removedHeaders: set<string>
    var bodyMutated: bool

    function View(): Message
      reads this
    {
      Message(headers, body, mutatedHeaders, removedHeaders, bodyMutated)
    }

    constructor ()
      ensures View() == NewMessage
    {
      headers, body, mutatedHeaders, removedHeaders, bodyMutated := map[], map[], map[], {}, false;
    }

    method SetHeader(key: string, value: string)
      modifies this
      ensures View() == Apply(old(View()), Op.SetHeader(key, value))
      ensures key in headers && headers[key] == value
      ensures forall original :: old(Faithful(original, View())) ==> Faithful(original, View())
    {
      ghost var before := View();
      if key !in headers || headers[key] != value {
        headers := headers[key := value];
        mutatedHeaders := mutatedHeaders[key := value];
        removedHeaders := removedHeaders - {key};
      }
      forall original | Faithful(original, before) ensures Faithful(original, View()) {
        ApplyFaithful(original, before, Op.SetHeader(key, value));
      }
    }

    method RemoveHeader(key: string)
      modifies this
      ensures View() == Apply(old(View()), Op.RemoveHeader(key))
      ensures key !in headers
      ensures forall original :: old(Faithful(original, View())) ==> Faithful(original, View())
    {
      ghost var before := View();
      if key in headers {
        headers := headers - {key};
        mutatedHeaders := mutatedHeaders - {key};
        removedHeaders := removedHeaders + {key};
      }
      forall original | Faithful(original, before) ensures Faithful(original, View()) {
        ApplyFaithful(original, before, Op.RemoveHeader(key));
      }
    }

    method SetBody(newBody: Object)
      modifies this
      ensures View() == Apply(old(View()), Op.SetBody(newBody))
    {
      body, bodyMutated := newBody, true;
    }

    method SetBodyField(key: string, value: Value)
      modifies this
      ensures View() == Apply(old(View()), Op.SetBodyField(key, value))
    {
      body, bodyMutated := body[key := value], true;
    }

    method RemoveBodyField(key: string)
      modifies this
      ensures View() == Apply(old(View()), Op.RemoveBodyField(key))
    {
      if key in body {
        body, bodyMutated := body - {key}, true;
      }
    }

    /** The calls a plugin makes on the message, in order. */
    method Perform(ops: seq<Op>)
      modifies this
      ensures View() == ApplyAll(old(View()), ops)
    {
      for i := 0 to |ops|
        invariant View() == ApplyAll(old(View()), ops[..i])
      {
        assert ops[..i + 1] == ops[..i] + [ops[i]];
        ApplyAllSnoc(old(View()), ops[..i], ops[i]);
        match ops[i]
        case SetHeader(k, v) => SetHeader(k, v);
        case RemoveHeader(k) => RemoveHeader(k);
        case SetBody(b) => SetBody(b);
        case SetBodyField(k, v) => SetBodyField(k, v);
        case RemoveBodyField(k) => RemoveBodyField(k);
      }
      assert ops[..|ops|] == ops;
    }
  }
}
