/** internal/flow/template.go: the data templates see, and the prompts they produce. */
module Templates {
  import opened Wrappers
  import opened FlowTypes
  import opened Text
  import Fence

  /** What a template sees of one step: the raw answer, and the parsed document when there is one. */
  datatype Entry = Entry(output: string, data: Option<string>)

  datatype Data = Data(input: map<string, string>, steps: map<string, Entry>)

  /**
   * The foreign code. `resolve` runs a template (None is a template error); `isJSON` is the JSON parser's verdict;
   * `answers` says which outputs an agent may give to a prompt.
   */
  datatype Env = Env(
    resolve: (string, Data) -> Option<string>,
    isJSON: string -> bool,
    answers: (string, string) -> bool)

  /** False for blank, "false", "0" and "no", ignoring case and surrounding space. */
  function IsTruthy(s: string): bool {
    var t := Trim(Lower(s));
    t != "" && t != "false" && t != "0" && t != "no"
  }

  /** The text is nothing, or a word that means no in any case, with space around it. */
  ghost predicate IsNo(s: string, a: string, w: string, b: string) {
    && s == a + w + b && AllSpace(a) && AllSpace(b)
    && (w == "" || w == "0" || Spells(w, "false") || Spells(w, "no"))
  }

  ghost predicate SaysNo(s: string) {
    exists a, w, b :: IsNo(s, a, w, b)
  }

  /** A text is truthy exactly when it does not say no. */
  lemma TruthyIff(s: string)
    ensures IsTruthy(s) <==> !SaysNo(s)
  {
    TrimOfLower(s);
    if !IsTruthy(s) {
      var a, b := TrimSplit(s);
      NoWord(Trim(s));
      assert IsNo(s, a, Trim(s), b);
    }
    if a, w, b :| IsNo(s, a, w, b) {
      TrimPadded(a, w, b);
      NoWord(w);
    }
  }

  lemma NoWord(w: string)
    ensures Lower(w) == "" <==> w == ""
    ensures Lower(w) == "0" <==> w == "0"
    ensures Lower(w) == "false" <==> Spells(w, "false")
    ensures Lower(w) == "no" <==> Spells(w, "no")
  {
    LowerSpells(w, "false");
    LowerSpells(w, "no");
    if Lower(w) == "0" {
      assert Lower(w)[0] == '0';
    }
  }

  /** A condition holds when its template resolves to something truthy; a template error counts as false. */
  function Holds(env: Env, tmpl: string, data: Data): bool {
    var r := env.resolve(tmpl, data);
    r.Some? && IsTruthy(r.value)
  }

  /** The output of a template whose error is ignored. */
  function ResolveOrEmpty(env: Env, tmpl: string, data: Data): string {
    env.resolve(tmpl, data).GetOr("")
  }

  function EntryOf(env: Env, output: string, outputJSON: string): Entry {
    Entry(output, if outputJSON != "" && env.isJSON(outputJSON) then Some(outputJSON) else None)
  }

  function EntryOfStep(env: Env, st: StepStatus): Entry {
    EntryOf(env, st.output, st.outputJSON)
  }

  /** BuildStatusByName: each name with the position of its status record; the last record wins. */
  function Index(steps: seq<StepStatus>): (m: map<string, nat>)
    ensures forall x :: x in m ==> m[x] < |steps| && steps[m[x]].name == x
    ensures forall i :: 0 <= i < |steps| ==> steps[i].name in m
  {
    if |steps| == 0 then map[]
    else
      var init := Index(steps[..|steps| - 1]);
      init[steps[|steps| - 1].name := |steps| - 1]
  }

  /** BuildTemplateData. */
  function Snapshot(env: Env, spec: FlowSpec, steps: seq<StepStatus>): Data {
    var index := Index(steps);
    Data(spec.input, map x | x in index :: EntryOfStep(env, steps[index[x]]))
  }

  /** The index of the records depends on their names only. */
  lemma {:induction false} SameNamesSameIndex(a: seq<StepStatus>, b: seq<StepStatus>)
    requires |a| == |b| && forall i :: 0 <= i < |a| ==> a[i].name == b[i].name
    ensures Index(a) == Index(b)
    decreases |a|
  {
    if a != [] {
      SameNamesSameIndex(a[..|a| - 1], b[..|b| - 1]);
    }
  }

  lemma SameSpecSameIndex(spec: FlowSpec, a: seq<StepStatus>, b: seq<StepStatus>)
    requires Aligned(spec, a) && Aligned(spec, b)
    ensures Index(a) == Index(b)
  {
    SameNamesSameIndex(a, b);
  }

  /** With unique names each name leads to its own record. */
  lemma IndexAt(spec: FlowSpec, steps: seq<StepStatus>, i: nat)
    requires UniqueNames(spec.steps) && Aligned(spec, steps) && i < |steps|
    ensures spec.steps[i].name in Index(steps) && Index(steps)[spec.steps[i].name] == i
  {
    var k := Index(steps)[steps[i].name];
    assert steps[k].name == spec.steps[k].name;
  }

  lemma SnapshotAt(env: Env, spec: FlowSpec, steps: seq<StepStatus>, i: nat)
    requires UniqueNames(spec.steps) && Aligned(spec, steps) && i < |steps|
    ensures var d := Snapshot(env, spec, steps);
            spec.steps[i].name in d.steps && d.steps[spec.steps[i].name] == EntryOfStep(env, steps[i])
  {
    IndexAt(spec, steps, i);
  }

  // ------------------------------------------------------------- prompts

  predicate InputsResolve(env: Env, step: Step, data: Data) {
    forall k :: k in step.inputs ==> env.resolve(step.inputs[k], data).Some?
  }

  function Resolved(env: Env, step: Step, data: Data): map<string, string>
    requires InputsResolve(env, step, data)
  {
    map k | k in step.inputs :: env.resolve(step.inputs[k], data).value
  }

  /** The order lists each key once. */
  ghost predicate IsOrder(keys: set<string>, order: seq<string>) {
    && (forall i, j :: 0 <= i < j < |order| ==> order[i] != order[j])
    && forall k :: k in order <==> k in keys
  }

  function InputLine(key: string, value: string): string {
    key + ": " + value + "\n"
  }

  /** One line per input, in the given order. */
  function InputLines(values: map<string, string>, order: seq<string>): string {
    if order == [] then ""
    else
      var k := order[|order| - 1];
      InputLines(values, order[..|order| - 1]) + if k in values then InputLine(k, values[k]) else ""
  }

  function SchemaLines(schema: string): string {
    if schema == "" then "" else "\nRespond with valid JSON matching this schema:\n" + schema + "\n"
  }

  function PromptText(values: map<string, string>, order: seq<string>, schema: string): string {
    InputLines(values, order) + SchemaLines(schema)
  }

  /** ResolvePrompt, taking the inputs in the given order; None when one of them is in error. */
  function PromptIn(env: Env, step: Step, data: Data, order: seq<string>): Option<string> {
    if InputsResolve(env, step, data) then Some(PromptText(Resolved(env, step, data), order, step.outputSchema))
        else None
  }

  /** The orders in which Go happens to range over the inputs of each step. */
  type Shuffle = (string, set<string>) -> seq<string>

  ghost predicate Shuffles(shuffle: Shuffle) {
    forall name, keys :: IsOrder(keys, shuffle(name, keys))
  }

  /** The prompt of a step; it is empty when an input is in error. */
  function PromptOf(env: Env, step: Step, data: Data, shuffle: Shuffle): string {
    PromptIn(env, step, data, shuffle(step.name, step.inputs.Keys)).GetOr("")
  }

  /** A prompt that the step may be launched with: its inputs can come in any order. */
  ghost predicate MayAsk(env: Env, step: Step, data: Data, prompt: string) {
    if InputsResolve(env, step, data)
    then exists order ::
        && IsOrder(step.inputs.Keys, order)
        && prompt == PromptText(Resolved(env, step, data), order, step.outputSchema)
    else prompt == ""
  }

  lemma PromptMayBeAsked(env: Env, step: Step, data: Data, shuffle: Shuffle)
    requires Shuffles(shuffle)
    ensures MayAsk(env, step, data, PromptOf(env, step, data, shuffle))
  {
    assert IsOrder(step.inputs.Keys, shuffle(step.name, step.inputs.Keys));
  }

  // ------------------------------------------------- what a prompt consists of

  /** Some input's template is in error. */
  ghost predicate SomeInputFails(env: Env, step: Step, data: Data) {
    exists k :: k in step.inputs && env.resolve(step.inputs[k], data).None?
  }

  /**
   * Piece i of the prompt is the line of the i-th input: its key, a colon and a space, what its template resolves to,
   * and a newline.
   */
  ghost predicate LineAt(env: Env, step: Step, data: Data, order: seq<string>, cuts: seq<nat>, prompt: string, i: nat)
    requires i < |order| && |cuts| == |order| + 1
  {
    && order[i] in step.inputs && env.resolve(step.inputs[order[i]], data).Some?
    && cuts[i] <= cuts[i + 1] <= |prompt|
    && prompt[cuts[i]..cuts[i + 1]] == order[i] + ": " + env.resolve(step.inputs[order[i]], data).value + "\n"
  }

  /** Cut at the given places, the prompt is one line for each input, in the given order, and the schema. */
  ghost predicate LaidOut(env: Env, step: Step, data: Data, order: seq<string>, cuts: seq<nat>, prompt: string) {
    && |cuts| == |order| + 1 && cuts[0] == 0 && cuts[|order|] <= |prompt|
    && (forall i: nat :: i < |order| ==> LineAt(env, step, data, order, cuts, prompt, i))
    && prompt[cuts[|order|]..]
        == if step.outputSchema == "" then ""
           else "\nRespond with valid JSON matching this schema:\n" + step.outputSchema + "\n"
  }

  /** The prompt shows what every input of the step resolves to, each once, and then the schema. */
  ghost predicate Shows(env: Env, step: Step, data: Data, prompt: string) {
    exists order, cuts :: IsOrder(step.inputs.Keys, order) && LaidOut(env, step, data, order, cuts, prompt)
  }

  /** What that means for one input, and for the schema: it is after all the lines. */
  lemma ShownInput(env: Env, step: Step, data: Data, order: seq<string>, cuts: seq<nat>, prompt: string, k: string)
    returns (at: nat)
    requires IsOrder(step.inputs.Keys, order) && LaidOut(env, step, data, order, cuts, prompt) && k in step.inputs
    ensures env.resolve(step.inputs[k], data).Some?
    ensures
      var line := k + ": " + env.resolve(step.inputs[k], data).value + "\n";
      OccursAt(prompt, line, at) && at + |line| <= cuts[|order|]
  {
    var i := KeyAt(step.inputs.Keys, order, k);
    assert LineAt(env, step, data, order, cuts, prompt, i);
    LinesBefore(env, step, data, order, cuts, prompt, i + 1);
    LineOccurs(env, step, data, order, cuts, prompt, i);
    at := cuts[i];
  }

  lemma KeyAt(keys: set<string>, order: seq<string>, k: string) returns (i: nat)
    requires IsOrder(keys, order) && k in keys
    ensures i < |order| && order[i] == k
  {
    assert k in order;
    i :| i < |order| && order[i] == k;
  }

  lemma LineOccurs(env: Env, step: Step, data: Data, order: seq<string>, cuts: seq<nat>, prompt: string, i: nat)
    requires i < |order| && |cuts| == |order| + 1 && LineAt(env, step, data, order, cuts, prompt, i)
    ensures
      var line := order[i] + ": " + env.resolve(step.inputs[order[i]], data).value + "\n";
      OccursAt(prompt, line, cuts[i]) && cuts[i] + |line| == cuts[i + 1]
  {
  }

  lemma LinesBefore(env: Env, step: Step, data: Data, order: seq<string>, cuts: seq<nat>, prompt: string, i: nat)
    requires LaidOut(env, step, data, order, cuts, prompt) && i <= |order|
    ensures cuts[i] <= cuts[|order|]
  {
    forall m: nat | m < |order|
      ensures cuts[m] <= cuts[m + 1]
    {
      assert LineAt(env, step, data, order, cuts, prompt, m);
    }
    CutsIncrease(cuts, i);
  }

  lemma {:induction false} CutsIncrease(cuts: seq<nat>, i: nat)
    requires i < |cuts| && forall m :: i <= m < |cuts| - 1 ==> cuts[m] <= cuts[m + 1]
    ensures cuts[i] <= cuts[|cuts| - 1]
    decreases |cuts| - i
  {
    if i < |cuts| - 1 {
      CutsIncrease(cuts, i + 1);
    }
  }

  lemma ShownSchema(env: Env, step: Step, data: Data, order: seq<string>, cuts: seq<nat>, prompt: string)
    returns (at: nat)
    requires LaidOut(env, step, data, order, cuts, prompt) && step.outputSchema != ""
    ensures at >= cuts[|order|] && OccursAt(prompt, step.outputSchema, at)
  {
    var lead := "\nRespond with valid JSON matching this schema:\n";
    var tail := prompt[cuts[|order|]..];
    at := cuts[|order|] + |lead|;
    assert tail[|lead|..|lead| + |step.outputSchema|] == step.outputSchema;
  }

  lemma {:induction false} LinesPrefix(values: map<string, string>, order: seq<string>, i: nat)
    requires i <= |order|
    ensures |InputLines(values, order[..i])| <= |InputLines(values, order)|
    ensures InputLines(values, order)[..|InputLines(values, order[..i])|] == InputLines(values, order[..i])
    decreases |order|
  {
    if i == |order| {
      assert order[..i] == order;
    } else {
      LinesPrefix(values, order[..|order| - 1], i);
      assert order[..|order| - 1][..i] == order[..i];
    }
  }

  /** Where the lines of a prompt begin and end. */
  function Cuts(values: map<string, string>, order: seq<string>): (c: seq<nat>)
    ensures |c| == |order| + 1
  {
    seq(|order| + 1, i requires 0 <= i <= |order| => |InputLines(values, order[..i])|)
  }

  lemma LineBetween(values: map<string, string>, order: seq<string>, i: nat)
    requires i < |order| && order[i] in values
    ensures
      var a, b := |InputLines(values, order[..i])|, |InputLines(values, order[..i + 1])|;
      && a <= b <= |InputLines(values, order)|
      && InputLines(values, order)[a..b] == order[i] + ": " + values[order[i]] + "\n"
  {
    var lines := InputLines(values, order);
    LinesPrefix(values, order, i);
    LinesPrefix(values, order, i + 1);
    var a, b := |InputLines(values, order[..i])|, |InputLines(values, order[..i + 1])|;
    assert order[..i + 1][..i] == order[..i];
    assert lines[..b][a..b] == lines[a..b];
  }

  lemma LineLaidOut(env: Env, step: Step, data: Data, order: seq<string>, tail: string, i: nat)
    requires IsOrder(step.inputs.Keys, order) && InputsResolve(env, step, data) && i < |order|
    ensures
      var values := Resolved(env, step, data);
      LineAt(env, step, data, order, Cuts(values, order), InputLines(values, order) + tail, i)
  {
    assert order[i] in order;
    var values := Resolved(env, step, data);
    LineBetween(values, order, i);
    SliceOfFront(InputLines(values, order), tail, Cuts(values, order)[i], Cuts(values, order)[i + 1]);
  }

  lemma SliceOfFront(front: string, tail: string, a: nat, b: nat)
    requires a <= b <= |front|
    ensures (front + tail)[a..b] == front[a..b]
  {
  }

  /** A prompt is laid out in its order. */
  lemma PromptLaidOut(env: Env, step: Step, data: Data, order: seq<string>)
    requires IsOrder(step.inputs.Keys, order) && InputsResolve(env, step, data)
    ensures
      var values := Resolved(env, step, data);
      LaidOut(env, step, data, order, Cuts(values, order), PromptText(values, order, step.outputSchema))
  {
    var values := Resolved(env, step, data);
    var prompt, tail := PromptText(values, order, step.outputSchema), SchemaLines(step.outputSchema);
    assert order[..|order|] == order && order[..0] == [];
    assert prompt[|InputLines(values, order)|..] == tail;
    forall i: nat | i < |order|
      ensures LineAt(env, step, data, order, Cuts(values, order), prompt, i)
    {
      LineLaidOut(env, step, data, order, tail, i);
    }
  }

  /** A prompt exists exactly if no input is in error, and shows all inputs. */
  lemma PromptShows(env: Env, step: Step, data: Data, order: seq<string>)
    requires IsOrder(step.inputs.Keys, order)
    ensures PromptIn(env, step, data, order).None? <==> SomeInputFails(env, step, data)
    ensures PromptIn(env, step, data, order).Some? ==>
      exists cuts :: LaidOut(env, step, data, order, cuts, PromptIn(env, step, data, order).value)
  {
    if InputsResolve(env, step, data) {
      PromptLaidOut(env, step, data, order);
    }
  }

  /** The prompt of a step whose inputs are not in error shows them. */
  lemma PromptOfShows(env: Env, step: Step, data: Data, shuffle: Shuffle)
    requires Shuffles(shuffle)
    ensures if SomeInputFails(env, step, data) then PromptOf(env, step, data, shuffle) == ""
      else Shows(env, step, data, PromptOf(env, step, data, shuffle))
  {
    var order := shuffle(step.name, step.inputs.Keys);
    assert IsOrder(step.inputs.Keys, order);
    PromptShows(env, step, data, order);
  }

  /** Ranges over the inputs in the given order, writing a line for each, and stops at the first that is in error. */
  method WriteLines(env: Env, step: Step, data: Data, order: seq<string>) returns (lines: Option<string>)
    requires IsOrder(step.inputs.Keys, order)
    ensures lines.Some? <==> InputsResolve(env, step, data)
    ensures lines.Some? ==> lines.value == InputLines(Resolved(env, step, data), order)
  {
    var buf := "";
    ghost var values: map<string, string> := map[];
    for i := 0 to |order|
      invariant forall k :: k in values <==> k in order[..i]
      invariant forall k :: k in values ==> k in step.inputs && env.resolve(step.inputs[k], data) == Some(values[k])
      invariant buf == InputLines(values, order[..i])
    {
      var key := order[i];
      assert key in order;
      var r := env.resolve(step.inputs[key], data);
      if r.None? {
        return None;
      }
      OneMoreLine(values, order, i, r.value);
      buf := buf + (key + ": " + r.value + "\n");
      values := values[key := r.value];
    }
    assert order[..|order|] == order;
    assert values == Resolved(env, step, data);
    lines := Some(buf);
  }

  /**
   * The prompt consists of one line for each input, in the given order, which holds what it resolves to, and the
   * schema after them; there is none if an input is in error.
   */
  method ResolvePrompt(env: Env, step: Step, data: Data, order: seq<string>) returns (prompt: Option<string>)
    requires IsOrder(step.inputs.Keys, order)
    ensures prompt == PromptIn(env, step, data, order)
    ensures prompt.None? <==> exists k :: k in step.inputs && env.resolve(step.inputs[k], data).None?
    ensures prompt.Some? ==> exists cuts :: LaidOut(env, step, data, order, cuts, prompt.value)
  {
    PromptShows(env, step, data, order);
    prompt := WriteLines(env, step, data, order);
    if prompt.Some? {
      prompt := Some(prompt.value + SchemaLines(step.outputSchema));
    }
  }

  /** Lines already written do not depend on inputs that come later. */
  lemma {:induction false} LinesSoFar(values: map<string, string>, k: string, v: string, order: seq<string>)
    requires k !in order
    ensures InputLines(values[k := v], order) == InputLines(values, order)
    decreases |order|
  {
    if order != [] {
      LinesSoFar(values, k, v, order[..|order| - 1]);
    }
  }

  lemma OneMoreLine(values: map<string, string>, order: seq<string>, i: nat, v: string)
    requires i < |order| && order[i] !in order[..i]
    ensures InputLines(values[order[i] := v], order[..i + 1]) == InputLines(values, order[..i]) + InputLine(order[i], v)
    ensures forall k :: k in order[..i + 1] <==> k in order[..i] || k == order[i]
  {
    assert order[..i + 1] == order[..i] + [order[i]];
    assert order[..i + 1][..i] == order[..i];
    LinesSoFar(values, order[i], v, order[..i]);
  }

  /** Whether a step's `if` lets it run. */
  predicate Wanted(env: Env, step: Step, data: Data) {
    step.cond == "" || Holds(env, step.cond, data)
  }

  /** Whether a succeeded step's loop condition asks for another repetition. */
  predicate Repeats(env: Env, step: Step, st: StepStatus, data: Data) {
    step.loop.Some? && st.iterations < step.loop.value.Cap() && Holds(env, step.loop.value.condition, data)
  }

  /** What ParseOutputJSON stores for an answer. */
  function ParsedJSON(env: Env, step: Step, output: string): string {
    if step.outputSchema == "" || output == "" then "" else Fence.Extract(env.isJSON, output)
  }

  /** DepsSucceeded: every dependency has a record, and it succeeded or was skipped. */
  predicate DepsSucceeded(deps: seq<string>, steps: seq<StepStatus>) {
    var index := Index(steps);
    forall k :: 0 <= k < |deps| ==> deps[k] in index && Done(steps[index[deps[k]]].phase)
  }

  /** With unique, known names that is: every step it depends on is done. */
  lemma DepsSucceededIff(spec: FlowSpec, steps: seq<StepStatus>, i: nat)
    requires UniqueNames(spec.steps) && Aligned(spec, steps) && i < |steps|
    ensures DepsSucceeded(spec.steps[i].dependsOn, steps) ==>
              forall j :: 0 <= j < |steps| && DependsOn(spec, i, j) ==> Done(steps[j].phase)
    ensures (forall j :: 0 <= j < |steps| && DependsOn(spec, i, j) ==> Done(steps[j].phase))
            && (forall k :: 0 <= k < |spec.steps[i].dependsOn| ==> spec.steps[i].dependsOn[k] in Index(steps))
            ==> DepsSucceeded(spec.steps[i].dependsOn, steps)
  {
    var deps, index := spec.steps[i].dependsOn, Index(steps);
    if DepsSucceeded(deps, steps) {
      forall j | 0 <= j < |steps| && DependsOn(spec, i, j)
        ensures Done(steps[j].phase)
      {
        var k :| 0 <= k < |deps| && deps[k] == spec.steps[j].name;
        IndexAt(spec, steps, j);
      }
    }
    if (forall j :: 0 <= j < |steps| && DependsOn(spec, i, j) ==> Done(steps[j].phase))
       && (forall k :: 0 <= k < |deps| ==> deps[k] in index) {
      forall k | 0 <= k < |deps|
        ensures Done(steps[index[deps[k]]].phase)
      {
        var j := index[deps[k]];
        assert spec.steps[j].name == deps[k];
        assert DependsOn(spec, i, j);
      }
    }
  }

  /** Satisfied dependencies stay satisfied while done steps stay done. */
  lemma DepsMonotone(spec: FlowSpec, deps: seq<string>, a: seq<StepStatus>, b: seq<StepStatus>)
    requires UniqueNames(spec.steps) && Aligned(spec, a) && Aligned(spec, b)
    requires forall i :: 0 <= i < |a| && Done(a[i].phase) ==> Done(b[i].phase)
    requires DepsSucceeded(deps, a)
    ensures DepsSucceeded(deps, b)
  {
    forall k | 0 <= k < |deps|
      ensures deps[k] in Index(b) && Done(b[Index(b)[deps[k]]].phase)
    {
      IndexAt(spec, b, Index(a)[deps[k]]);
    }
  }
}
