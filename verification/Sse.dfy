/** Reading a server-sent-event response body: one composite object for a whole stream. */
module Sse {
  import opened Common
  import opened Json

  const NEWLINE: Byte := 10
  const DATA_PREFIX: Bytes := [100, 97, 116, 97, 58]   // data:
  const DONE: Bytes := [91, 68, 79, 78, 69, 93]        // [DONE]

  predicate IsSpace(b: Byte) { 9 <= b <= 13 || b == 32 }

  function TrimLeft(s: Bytes): Bytes {
    if s != [] && IsSpace(s[0]) then TrimLeft(s[1..]) else s
  }

  function TrimRight(s: Bytes): Bytes {
    if s != [] && IsSpace(s[|s| - 1]) then TrimRight(s[..|s| - 1]) else s
  }

  function TrimSpace(s: Bytes): Bytes { TrimRight(TrimLeft(s)) }

  /** `bytes.Split(body, "\n")`. */
  function Lines(body: Bytes): (lines: seq<Bytes>)
    ensures lines != []
  {
    if body == [] then [[]] else Prepend(body[0], Lines(body[1..]))
  }

  function Prepend(b: Byte, lines: seq<Bytes>): (r: seq<Bytes>)
    requires lines != []
    ensures r != []
  {
    if b == NEWLINE then [[]] + lines else [[b] + lines[0]] + lines[1..]
  }

  /** The JSON object a line carries, if it is a data line that carries one. */
  function EventOf(codec: Codec, line: Bytes): Option<Object> {
    var l := TrimSpace(line);
    if !(DATA_PREFIX <= l) then None else
      var data := TrimSpace(l[5..]);
      if data == [] || data == DONE then None else codec.decode(data)
  }

  /** What the loop over lines has gathered so far. */
  datatype Summary = Summary(model: string, text: string, stop: string, usage: Option<Object>)

  const Nothing := Summary("", "", "", None)

  function OrElse(later: string, earlier: string): string { if later != "" then later else earlier }

  function MergeUsage(earlier: Option<Object>, later: Option<Object>): Option<Object> {
    if later.None? then earlier
    else if earlier.None? then later
    else Some(earlier.value + later.value)
  }

  /** The later part wins for model and stop reason, text concatenates, usage merges per key. */
  function Combine(a: Summary, b: Summary): Summary {
    Summary(OrElse(b.model, a.model), a.text + b.text, OrElse(b.stop, a.stop), MergeUsage(a.usage, b.usage))
  }

  function ChoicesOf(e: Object): seq<Value> {
    if "choices" in e && e["choices"].Arr? then e["choices"].items else []
  }

  function AbsorbChoice(s: Summary, c: Value): Summary {
    var choice := if c.Obj? then c.fields else map[];
    var delta := ObjectAt(choice, "delta");
    var text := if delta.Some? then StringAt(delta.value, "content") else "";
    s.(text := s.text + text, stop := OrElse(StringAt(choice, "finish_reason"), s.stop))
  }

  function AbsorbChoices(s: Summary, choices: seq<Value>): Summary
    decreases |choices|
  {
    if choices == [] then s else AbsorbChoices(AbsorbChoice(s, choices[0]), choices[1..])
  }

  function AbsorbDelta(s: Summary, e: Object): Summary {
    match ObjectAt(e, "delta")
    case None => s
    case Some(d) => s.(text := s.text + StringAt(d, "text"), stop := OrElse(StringAt(d, "stop_reason"), s.stop))
  }

  /** The model an event names: the top level, overridden by `message`, overridden by `response`
      where `response` is consulted at all. */
  function EventModel(e: Object): string {
    var top := StringAt(e, "model");
    var message := ObjectAt(e, "message");
    var nested := if message.Some? then OrElse(StringAt(message.value, "model"), top) else top;
    var response := ObjectAt(e, "response");
    if ObjectAt(e, "usage").None? && response.Some? then OrElse(StringAt(response.value, "model"), nested) else nested
  }

  /** Usage at the top level, else inside `response`. */
  function EventUsage(e: Object): Option<Object> {
    var response := ObjectAt(e, "response");
    if ObjectAt(e, "usage").Some? then ObjectAt(e, "usage")
    else if response.Some? then ObjectAt(response.value, "usage")
    else None
  }

  function Absorb(s: Summary, e: Object): Summary {
    var t := AbsorbChoices(AbsorbDelta(s, e), ChoicesOf(e));
    t.(model := OrElse(EventModel(e), t.model), usage := MergeUsage(t.usage, EventUsage(e)))
  }

  function AbsorbLine(codec: Codec, s: Summary, line: Bytes): Summary {
    match EventOf(codec, line)
    case None => s
    case Some(e) => Absorb(s, e)
  }

  function AbsorbLines(codec: Codec, s: Summary, lines: seq<Bytes>): Summary
    decreases |lines|
  {
    if lines == [] then s else AbsorbLines(codec, AbsorbLine(codec, s, lines[0]), lines[1..])
  }

  function Summarize(codec: Codec, body: Bytes): Summary { AbsorbLines(codec, Nothing, Lines(body)) }

  /** The object handed to response plugins and to the data layer. */
  function Compose(s: Summary): Option<Object> {
    if s.model == "" && s.usage.None? then None else
      var model: Object := if s.model == "" then map[] else map["model" := Str(s.model)];
      var usage: Object := if s.usage.None? then map[] else map["usage" := Obj(s.usage.value)];
      var content: Object := if s.text == "" then map[] else
        map["content" := Arr([Obj(map["type" := Str("text"), "text" := Str(s.text)])]),
            "type" := Str("message"), "role" := Str("assistant")];
      var stop: Object := if s.stop == "" then map[] else map["stop_reason" := Str(s.stop)];
      Some(model + usage + content + stop)
  }

  function ParseSse(codec: Codec, body: Bytes): Option<Object> { Compose(Summarize(codec, body)) }

  // ---------- the summary is a homomorphism ----------

  lemma PrependToLines(c: Byte, a: seq<Bytes>, b: seq<Bytes>)
    requires a != []
    ensures Prepend(c, a + b) == Prepend(c, a) + b
  {
    assert (a + b)[1..] == a[1..] + b;
  }

  lemma {:induction false} LinesOfJoin(a: Bytes, b: Bytes)
    ensures Lines(a + [NEWLINE] + b) == Lines(a) + Lines(b)
  {
    var whole := a + [NEWLINE] + b;
    if a == [] {
      assert whole[1..] == b;
    } else {
      LinesOfJoin(a[1..], b);
      assert whole[1..] == a[1..] + [NEWLINE] + b;
      PrependToLines(a[0], Lines(a[1..]), Lines(b));
    }
  }

  lemma CombineAssociates(a: Summary, b: Summary, c: Summary)
    ensures Combine(Combine(a, b), c) == Combine(a, Combine(b, c))
  {
    assert (a.text + b.text) + c.text == a.text + (b.text + c.text);
    if a.usage.Some? && b.usage.Some? && c.usage.Some? {
      assert (a.usage.value + b.usage.value) + c.usage.value == a.usage.value + (b.usage.value + c.usage.value);
    }
  }

  lemma CombineNothing(s: Summary)
    ensures Combine(s, Nothing) == s && Combine(Nothing, s) == s
  {
    assert s.text + "" == s.text && "" + s.text == s.text;
  }

  lemma {:induction false} AbsorbChoicesCombines(s: Summary, choices: seq<Value>)
    ensures AbsorbChoices(s, choices) == Combine(s, AbsorbChoices(Nothing, choices))
    decreases |choices|
  {
    if choices == [] {
      CombineNothing(s);
    } else {
      var first := AbsorbChoice(Nothing, choices[0]);
      assert AbsorbChoice(s, choices[0]) == Combine(s, first);
      AbsorbChoicesCombines(AbsorbChoice(s, choices[0]), choices[1..]);
      AbsorbChoicesCombines(first, choices[1..]);
      CombineAssociates(s, first, AbsorbChoices(Nothing, choices[1..]));
    }
  }

  lemma AbsorbCombines(s: Summary, e: Object)
    ensures Absorb(s, e) == Combine(s, Absorb(Nothing, e))
  {
    var delta := AbsorbDelta(Nothing, e);
    var choices := AbsorbChoices(Nothing, ChoicesOf(e));
    CombineNothing(s);
    assert AbsorbDelta(s, e) == Combine(s, delta);
    AbsorbChoicesCombines(AbsorbDelta(s, e), ChoicesOf(e));
    AbsorbChoicesCombines(delta, ChoicesOf(e));
    CombineAssociates(s, delta, choices);
    var t := AbsorbChoices(delta, ChoicesOf(e));
    var tail := Summary(EventModel(e), "", "", EventUsage(e));
    assert t.text + "" == t.text;
    assert Absorb(Nothing, e) == Combine(t, tail);
    var u := AbsorbChoices(AbsorbDelta(s, e), ChoicesOf(e));
    assert u.text + "" == u.text;
    assert Absorb(s, e) == Combine(u, tail);
    CombineAssociates(s, t, tail);
  }

  lemma {:induction false} AbsorbLinesCombines(codec: Codec, s: Summary, lines: seq<Bytes>)
    ensures AbsorbLines(codec, s, lines) == Combine(s, AbsorbLines(codec, Nothing, lines))
    decreases |lines|
  {
    CombineNothing(s);
    if lines != [] {
      var first := AbsorbLine(codec, Nothing, lines[0]);
      if EventOf(codec, lines[0]).Some? {
        AbsorbCombines(s, EventOf(codec, lines[0]).value);
      }
      AbsorbLinesCombines(codec, AbsorbLine(codec, s, lines[0]), lines[1..]);
      AbsorbLinesCombines(codec, first, lines[1..]);
      CombineAssociates(s, first, AbsorbLines(codec, Nothing, lines[1..]));
    }
  }

  lemma {:induction false} AbsorbLinesOfConcat(codec: Codec, s: Summary, a: seq<Bytes>, b: seq<Bytes>)
    ensures AbsorbLines(codec, s, a + b) == AbsorbLines(codec, AbsorbLines(codec, s, a), b)
    decreases |a|
  {
    if a == [] {
      assert a + b == b;
    } else {
      assert (a + b)[1..] == a[1..] + b;
      AbsorbLinesOfConcat(codec, AbsorbLine(codec, s, a[0]), a[1..], b);
    }
  }

  /** Two bodies joined by a newline summarise to the combination of their summaries. */
  lemma SummaryIsHomomorphism(codec: Codec, a: Bytes, b: Bytes)
    ensures Summarize(codec, a + [NEWLINE] + b) == Combine(Summarize(codec, a), Summarize(codec, b))
  {
    LinesOfJoin(a, b);
    AbsorbLinesOfConcat(codec, Nothing, Lines(a), Lines(b));
    AbsorbLinesCombines(codec, Summarize(codec, a), Lines(b));
  }

  // ---------- what one line contributes ----------

  predicate Blank(s: Bytes) { forall i :: 0 <= i < |s| ==> IsSpace(s[i]) }

  /** Neither empty nor with white space at an end. */
  predicate Solid(s: Bytes) { s != [] && !IsSpace(s[0]) && !IsSpace(s[|s| - 1]) }

  lemma {:induction false} TrimLeftBlank(pre: Bytes, s: Bytes)
    requires Blank(pre) && (s == [] || !IsSpace(s[0]))
    ensures TrimLeft(pre + s) == s
    decreases |pre|
  {
    if pre == [] {
      assert pre + s == s;
    } else {
      assert (pre + s)[1..] == pre[1..] + s;
      TrimLeftBlank(pre[1..], s);
    }
  }

  lemma {:induction false} TrimRightBlank(s: Bytes, post: Bytes)
    requires Blank(post) && (s == [] || !IsSpace(s[|s| - 1]))
    ensures TrimRight(s + post) == s
    decreases |post|
  {
    if post == [] {
      assert s + post == s;
    } else {
      assert (s + post)[..|s + post| - 1] == s + post[..|post| - 1];
      TrimRightBlank(s, post[..|post| - 1]);
    }
  }

  lemma TrimIsExact(pre: Bytes, s: Bytes, post: Bytes)
    requires Blank(pre) && Blank(post) && (s == [] || Solid(s))
    ensures TrimSpace(pre + s + post) == s
  {
    if s == [] {
      assert Blank(pre + post) && pre + s + post == pre + post + [];
      TrimLeftBlank(pre + post, []);
    } else {
      assert pre + s + post == pre + (s + post);
      TrimLeftBlank(pre, s + post);
      TrimRightBlank(s, post);
    }
  }

  /** A data line, white space apart, carries what its data decodes to, and the end marker nothing. */
  lemma DataLineIsDecoded(codec: Codec, pre: Bytes, gap: Bytes, data: Bytes, post: Bytes)
    requires Blank(pre) && Blank(gap) && Blank(post) && Solid(data)
    ensures EventOf(codec, pre + (DATA_PREFIX + gap + data) + post) == if data == DONE then None else codec.decode(data)
  {
    var line := DATA_PREFIX + gap + data;
    assert line[0] == 100 && line[|line| - 1] == data[|data| - 1];
    TrimIsExact(pre, line, post);
    assert line[5..] == gap + data + [];
    TrimIsExact(gap, data, []);
  }

  /** Any other line, white space apart, carries nothing. */
  lemma OtherLinesAreSkipped(codec: Codec, pre: Bytes, line: Bytes, post: Bytes)
    requires Blank(pre) && Blank(post) && (line == [] || Solid(line)) && !(DATA_PREFIX <= line)
    ensures EventOf(codec, pre + line + post).None?
  {
    TrimIsExact(pre, line, post);
  }

  /** The document holds this value under a field, or under a field of an object field. */
  ghost predicate At(e: Object, key: string, v: Value) { key in e && e[key] == v }
  ghost predicate AtIn(e: Object, outer: string, key: string, v: Value) {
    exists fields :: At(e, outer, Obj(fields)) && At(fields, key, v)
  }

  ghost predicate HasUsage(e: Object) { exists u :: At(e, "usage", Obj(u)) }
  ghost predicate NamedIn(e: Object, outer: string) { exists m :: m != "" && AtIn(e, outer, "model", Str(m)) }

  lemma EventNames(e: Object)
    ensures Absorb(Nothing, e).model == EventModel(e) && Absorb(Nothing, e).usage == EventUsage(e)
  {
    ChoicesKeepModelAndUsage(AbsorbDelta(Nothing, e), ChoicesOf(e));
  }

  /** An event's usage stands at its top level, or else inside its response. */
  lemma UsageOfEvent(e: Object, u: Object)
    ensures Absorb(Nothing, e).usage == Some(u) <==>
            At(e, "usage", Obj(u)) || (!HasUsage(e) && AtIn(e, "response", "usage", Obj(u)))
  {
    EventNames(e);
    assert ObjectAt(e, "usage").Some? ==> At(e, "usage", Obj(ObjectAt(e, "usage").value));
  }

  /** An event's model: the response's, which only counts where there is no usage at the top level; else the
      message's; else the one at the top level. */
  lemma ModelOfEvent(e: Object, m: string)
    requires m != ""
    ensures var consulted := !HasUsage(e) && NamedIn(e, "response");
            Absorb(Nothing, e).model == m <==>
            if consulted then AtIn(e, "response", "model", Str(m))
            else if NamedIn(e, "message") then AtIn(e, "message", "model", Str(m))
            else At(e, "model", Str(m))
  {
    EventNames(e);
    FieldIn(e, "response", m);
    FieldIn(e, "message", m);
    assert ObjectAt(e, "usage").Some? ==> At(e, "usage", Obj(ObjectAt(e, "usage").value));
  }

  lemma FieldIn(e: Object, outer: string, m: string)
    requires m != ""
    ensures AtIn(e, outer, "model", Str(m)) <==>
            ObjectAt(e, outer).Some? && StringAt(ObjectAt(e, outer).value, "model") == m
    ensures NamedIn(e, outer) <==> ObjectAt(e, outer).Some? && StringAt(ObjectAt(e, outer).value, "model") != ""
  {
    if ObjectAt(e, outer).Some? {
      var fields := ObjectAt(e, outer).value;
      var n := StringAt(fields, "model");
      assert At(e, outer, Obj(fields));
      assert n != "" ==> At(fields, "model", Str(n)) && AtIn(e, outer, "model", Str(n));
    }
  }

  /** A text piece: the string there, or nothing. */
  ghost predicate Piece(e: Object, outer: string, key: string, text: string) {
    AtIn(e, outer, key, Str(text)) || (text == "" && forall t :: !AtIn(e, outer, key, Str(t)))
  }

  lemma PieceIn(e: Object, outer: string, key: string)
    ensures Piece(e, outer, key, if ObjectAt(e, outer).Some? then StringAt(ObjectAt(e, outer).value, key) else "")
  {
    if ObjectAt(e, outer).Some? {
      assert At(e, outer, Obj(ObjectAt(e, outer).value));
    }
  }

  /** One choice: its delta's content, and its finish reason. */
  ghost predicate ChoiceSays(c: Value, text: string, stop: string) {
    var choice := if c.Obj? then c.fields else map[];
    && Piece(choice, "delta", "content", text)
    && (At(choice, "finish_reason", Str(stop)) || (stop == "" && forall t :: !At(choice, "finish_reason", Str(t))))
  }

  /** All choices in order: their texts joined, and the last finish reason that is not empty. */
  ghost predicate ChoicesSay(choices: seq<Value>, texts: seq<string>, stops: seq<string>) {
    && |texts| == |stops| == |choices|
    && forall i :: 0 <= i < |choices| ==> ChoiceSays(choices[i], texts[i], stops[i])
  }

  function Join(texts: seq<string>): string {
    if texts == [] then "" else Join(texts[..|texts| - 1]) + texts[|texts| - 1]
  }

  ghost predicate LastNonEmpty(stops: seq<string>, otherwise: string, stop: string) {
    || (stop == otherwise && forall i :: 0 <= i < |stops| ==> stops[i] == "")
    || (exists i :: 0 <= i < |stops| && stops[i] == stop != "" && forall j :: i < j < |stops| ==> stops[j] == "")
  }

  lemma {:induction false} ChoicesOfSnoc(s: Summary, choices: seq<Value>, c: Value)
    ensures AbsorbChoices(s, choices + [c]) == AbsorbChoice(AbsorbChoices(s, choices), c)
    decreases |choices|
  {
    if choices == [] {
      assert choices + [c] == [c];
    } else {
      assert (choices + [c])[1..] == choices[1..] + [c];
      ChoicesOfSnoc(AbsorbChoice(s, choices[0]), choices[1..], c);
    }
  }

  lemma ChoiceContributes(s: Summary, c: Value) returns (text: string, stop: string)
    ensures ChoiceSays(c, text, stop)
    ensures AbsorbChoice(s, c) == s.(text := s.text + text, stop := OrElse(stop, s.stop))
  {
    var choice := if c.Obj? then c.fields else map[];
    text := if ObjectAt(choice, "delta").Some? then StringAt(ObjectAt(choice, "delta").value, "content") else "";
    stop := StringAt(choice, "finish_reason");
    PieceIn(choice, "delta", "content");
  }

  lemma ChoicesSaySnoc(choices: seq<Value>, texts: seq<string>, stops: seq<string>, c: Value, text: string, stop: string)
    requires ChoicesSay(choices, texts, stops) && ChoiceSays(c, text, stop)
    ensures ChoicesSay(choices + [c], texts + [text], stops + [stop])
    ensures Join(texts + [text]) == Join(texts) + text
  {
    assert (texts + [text])[..|texts|] == texts;
  }

  /** The pieces of these choices, gathered after s, make t. */
  ghost predicate Gathered(s: Summary, choices: seq<Value>, texts: seq<string>, stops: seq<string>, t: Summary) {
    ChoicesSay(choices, texts, stops) && t.text == s.text + Join(texts) && LastNonEmpty(stops, s.stop, t.stop)
  }

  lemma GatheredSnoc(
    s: Summary, choices: seq<Value>, texts: seq<string>, stops: seq<string>, t: Summary, c: Value, text: string,
    stop: string)
    requires Gathered(s, choices, texts, stops, t) && ChoiceSays(c, text, stop)
    ensures var u := t.(text := t.text + text, stop := OrElse(stop, t.stop));
            Gathered(s, choices + [c], texts + [text], stops + [stop], u)
  {
    ChoicesSaySnoc(choices, texts, stops, c, text, stop);
    LastNonEmptySnoc(stops, s.stop, t.stop, stop);
    assert s.text + Join(texts) + text == s.text + (Join(texts) + text);
  }

  lemma {:induction false} ChoicesContribute(s: Summary, choices: seq<Value>)
    returns (texts: seq<string>, stops: seq<string>)
    ensures Gathered(s, choices, texts, stops, AbsorbChoices(s, choices))
  {
    if choices == [] {
      texts, stops := [], [];
      assert s.text + "" == s.text;
    } else {
      var front, c := choices[..|choices| - 1], choices[|choices| - 1];
      var before := AbsorbChoices(s, front);
      texts, stops := ChoicesContribute(s, front);
      var text, stop := ChoiceContributes(before, c);
      assert choices == front + [c];
      ChoicesOfSnoc(s, front, c);
      GatheredSnoc(s, front, texts, stops, before, c, text, stop);
      texts, stops := texts + [text], stops + [stop];
    }
  }

  lemma LastNonEmptySnoc(stops: seq<string>, otherwise: string, stop: string, last: string)
    requires LastNonEmpty(stops, otherwise, stop)
    ensures LastNonEmpty(stops + [last], otherwise, OrElse(last, stop))
  {
    var all := stops + [last];
    assert all[|stops|] == last;
    if last == "" {
      if i :| 0 <= i < |stops| && stops[i] == stop != "" && forall j :: i < j < |stops| ==> stops[j] == "" {
        assert all[i] == stop;
      }
    }
  }

  /** What one event adds to the text and the stop reason: its delta's text before its choices' contents, and the
      last finish reason of its choices before its delta's stop reason. */
  lemma EventContributes(e: Object) returns (text: string, stop: string, texts: seq<string>, stops: seq<string>)
    ensures Piece(e, "delta", "text", text) && Piece(e, "delta", "stop_reason", stop)
    ensures (exists items :: At(e, "choices", Arr(items)) && ChoicesSay(items, texts, stops)) ||
            (texts == stops == [] && forall items :: !At(e, "choices", Arr(items)))
    ensures Absorb(Nothing, e).text == text + Join(texts)
    ensures LastNonEmpty(stops, stop, Absorb(Nothing, e).stop)
  {
    var d := AbsorbDelta(Nothing, e);
    text, stop := d.text, d.stop;
    PieceIn(e, "delta", "text");
    PieceIn(e, "delta", "stop_reason");
    assert "" + text == text;
    texts, stops := ChoicesContribute(d, ChoicesOf(e));
    if exists items :: At(e, "choices", Arr(items)) {
      assert At(e, "choices", Arr(ChoicesOf(e)));
    }
  }

  lemma {:induction false} OneLine(line: Bytes)
    requires NEWLINE !in line
    ensures Lines(line) == [line]
  {
    if line != [] {
      OneLine(line[1..]);
      assert [line[0]] + line[1..] == line;
    }
  }

  /** A body of a single line summarises to what its event adds, if it carries one. */
  lemma LineContributes(codec: Codec, line: Bytes)
    requires NEWLINE !in line
    ensures Summarize(codec, line) ==
            if EventOf(codec, line).Some? then Absorb(Nothing, EventOf(codec, line).value) else Nothing
  {
    OneLine(line);
    assert AbsorbLines(codec, Nothing, [line]) == AbsorbLine(codec, Nothing, line);
  }

  /** The later part of a body goes before the earlier, except for the text, which is joined: usage field by field. */
  lemma LaterWins(a: Summary, b: Summary, key: string, v: Value)
    ensures var c := Combine(a, b);
            && c.text == a.text + b.text
            && c.model == (if b.model == "" then a.model else b.model)
            && c.stop == (if b.stop == "" then a.stop else b.stop)
            && (c.usage.Some? <==> a.usage.Some? || b.usage.Some?)
            && (Counts(c.usage, key, v) <==>
                Counts(b.usage, key, v) || (Counts(a.usage, key, v) && forall w :: !Counts(b.usage, key, w)))
  {
    assert b.usage.Some? && key in b.usage.value ==> Counts(b.usage, key, b.usage.value[key]);
  }

  ghost predicate Counts(usage: Option<Object>, key: string, v: Value) { usage.Some? && At(usage.value, key, v) }

  /** The composite object field by field. */
  lemma CompositeFields(s: Summary, key: string, v: Value)
    requires s.model != "" || s.usage.Some?
    ensures Compose(s).Some?
    ensures At(Compose(s).value, key, v) <==>
            || (key == "model" && s.model != "" && v == Str(s.model))
            || (key == "usage" && s.usage.Some? && v == Obj(s.usage.value))
            || (key == "content" && s.text != "" && v == Arr([Obj(map["type" := Str("text"), "text" := Str(s.text)])]))
            || (key == "type" && s.text != "" && v == Str("message"))
            || (key == "role" && s.text != "" && v == Str("assistant"))
            || (key == "stop_reason" && s.stop != "" && v == Str(s.stop))
  {
  }

  // ---------- when there is a summary at all ----------

  ghost predicate Informative(codec: Codec, line: Bytes) {
    var e := EventOf(codec, line);
    e.Some? && (EventModel(e.value) != "" || EventUsage(e.value).Some?)
  }

  ghost predicate AnyInformative(codec: Codec, lines: seq<Bytes>) {
    exists i :: 0 <= i < |lines| && Informative(codec, lines[i])
  }

  lemma {:induction false} ChoicesKeepModelAndUsage(s: Summary, choices: seq<Value>)
    ensures AbsorbChoices(s, choices).model == s.model && AbsorbChoices(s, choices).usage == s.usage
    decreases |choices|
  {
    if choices != [] {
      ChoicesKeepModelAndUsage(AbsorbChoice(s, choices[0]), choices[1..]);
    }
  }

  lemma {:induction false} InformativeLines(codec: Codec, s: Summary, lines: seq<Bytes>)
    ensures var r := AbsorbLines(codec, s, lines);
            (r.model != "" || r.usage.Some?) <==>
            (s.model != "" || s.usage.Some? || AnyInformative(codec, lines))
    decreases |lines|
  {
    if lines != [] {
      var rest := lines[1..];
      var t := AbsorbLine(codec, s, lines[0]);
      var e := EventOf(codec, lines[0]);
      if e.Some? {
        ChoicesKeepModelAndUsage(AbsorbDelta(s, e.value), ChoicesOf(e.value));
      }
      InformativeLines(codec, t, rest);
      assert forall i :: 0 <= i < |rest| ==> rest[i] == lines[i + 1];
      assert forall i :: 0 < i < |lines| ==> lines[i] == rest[i - 1];
    }
  }

  /** The parser returns nothing exactly when no data line named a model or carried usage. */
  lemma NothingIffUninformative(codec: Codec, body: Bytes)
    ensures ParseSse(codec, body).None? <==> !AnyInformative(codec, Lines(body))
  {
    InformativeLines(codec, Nothing, Lines(body));
  }

  lemma EmptyBodyHasNoSummary(codec: Codec)
    ensures ParseSse(codec, []).None?
  {
    assert Lines([]) == [[]];
    assert EventOf(codec, []).None?;
    NothingIffUninformative(codec, []);
  }

  lemma AbsorbLinesSnoc(codec: Codec, s: Summary, lines: seq<Bytes>, i: nat)
    requires i < |lines|
    ensures AbsorbLines(codec, s, lines[..i + 1]) == AbsorbLine(codec, AbsorbLines(codec, s, lines[..i]), lines[i])
  {
    assert lines[..i + 1] == lines[..i] + [lines[i]];
    AbsorbLinesOfConcat(codec, s, lines[..i], [lines[i]]);
  }

  /** The choices of one event, gathered into the running text and stop reason. */
  method ReadChoices(choices: seq<Value>, text0: string, stop0: string) returns (text: string, stop: string)
    ensures forall m, u :: AbsorbChoices(Summary(m, text0, stop0, u), choices) == Summary(m, text, stop, u)
  {
    text, stop := text0, stop0;
    var rest := choices;
    while rest != []
      invariant forall m, u :: AbsorbChoices(Summary(m, text0, stop0, u), choices) ==
                               AbsorbChoices(Summary(m, text, stop, u), rest)
      decreases |rest|
    {
      var choice := if rest[0].Obj? then rest[0].fields else map[];
      var delta := ObjectAt(choice, "delta");
      ghost var text1, stop1 := text, stop;
      if delta.Some? {
        text := text + StringAt(delta.value, "content");
      }
      if StringAt(choice, "finish_reason") != "" {
        stop := StringAt(choice, "finish_reason");
      }
      assert text1 + "" == text1;
      assert forall m, u :: AbsorbChoice(Summary(m, text1, stop1, u), rest[0]) == Summary(m, text, stop, u);
      rest := rest[1..];
    }
  }

  method ParseSseResponseBody(codec: Codec, body: Bytes) returns (result: Option<Object>)
    ensures result == ParseSse(codec, body)
    ensures result.None? <==> !AnyInformative(codec, Lines(body))
  {
    var model, text, stop: string, usage: Option<Object> := "", "", "", None;
    var lines := Lines(body);
    for i := 0 to |lines|
      invariant Summary(model, text, stop, usage) == AbsorbLines(codec, Nothing, lines[..i])
    {
      AbsorbLinesSnoc(codec, Nothing, lines, i);
      var event := EventOf(codec, lines[i]);
      if event.None? {
        continue;
      }
      var e := event.value;
      ghost var s := Summary(model, text, stop, usage);
      var delta := ObjectAt(e, "delta");
      if delta.Some? {
        text := text + StringAt(delta.value, "text");
        if StringAt(delta.value, "stop_reason") != "" {
          stop := StringAt(delta.value, "stop_reason");
        }
      }
      assert AbsorbDelta(s, e) == Summary(model, text, stop, usage);
      text, stop := ReadChoices(ChoicesOf(e), text, stop);
      assert Summary(model, text, stop, usage) == AbsorbChoices(AbsorbDelta(s, e), ChoicesOf(e));
      if EventModel(e) != "" {
        model := EventModel(e);
      }
      var more := EventUsage(e);
      if more.Some? {
        usage := Some((if usage.Some? then usage.value else map[]) + more.value);
        assert s.usage.None? ==> map[] + more.value == more.value;
      }
      assert Summary(model, text, stop, usage) == Absorb(s, e);
    }
    assert lines[..|lines|] == lines;
    NothingIffUninformative(codec, body);
    result := Compose(Summary(model, text, stop, usage));
  }
}
