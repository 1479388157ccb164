/**
 The inputs of post-install scripts: what a deployment chooses for every machine, and how each script
 later reads its own inputs back from the stored choice. `finite` tells which texts read as a finite
 number.
 */
module Inputs {
  import opened Options
  import opened Text

  datatype InputKind = Plain | Number | Choice | Secret

  datatype ScriptInput = ScriptInput(name: string, caption: string, description: Option<string>, kind: InputKind,
                                     required: bool, defaultValue: Option<string>, perMachine: bool,
                                     choices: seq<string>)

  type Values = map<string, string>
  type Finite = string -> bool

  const MAX_DESCRIPTION_LEN: nat := 1000

  // ----- one input ---------------------------------------------------------------------------------

  predicate Check(finite: Finite, input: ScriptInput, value: string) {
    '\0' !in value && match input.kind
      case Plain => true
      case Secret => true
      case Number => finite(Trim(value))
      case Choice => value in input.choices
  }

  function Given(name: string, values: Values): Option<string> {
    if name in values && values[name] != "" then Some(values[name]) else None
  }

  function ValueFrom(input: ScriptInput, values: Values): Option<string> {
    var given := Given(input.name, values);
    if given.Some? then given else input.defaultValue
  }

  predicate IsInputName(name: string) {
    name != [] && forall i :: 0 <= i < |name| ==> 'a' <= name[i] <= 'z' || IsDigit(name[i]) || name[i] == '_'
  }

  predicate Distinct<T(==)>(items: seq<T>) {
    forall i, j :: 0 <= i < j < |items| ==> items[i] != items[j]
  }

  predicate Validate(finite: Finite, input: ScriptInput) {
    && IsInputName(input.name)
    && (input.kind == Choice <==> input.choices != [])
    && Distinct(input.choices)
    && (input.description.Some? ==> |input.description.value| <= MAX_DESCRIPTION_LEN && '\0' !in input.description.value)
    && (input.kind == Secret ==> input.defaultValue.None?)
    && (input.defaultValue.Some? ==> Check(finite, input, input.defaultValue.value))
  }

  /** A value that can be given: no null character, a finite number between spaces, one of the choices. */
  ghost predicate CanBeGiven(finite: Finite, input: ScriptInput, value: string) {
    && (forall c :: c in value ==> c as int != 0)
    && (input.kind == Number ==> exists number :: Surrounds(value, number) && finite(number))
    && (input.kind == Choice ==> value in input.choices)
  }

  lemma CheckMeans(finite: Finite, input: ScriptInput, value: string)
    ensures Check(finite, input, value) <==> CanBeGiven(finite, input, value)
  {
    TrimMeans(value);
    if number :| Surrounds(value, number) && finite(number) {
      TrimIs(value, number);
    }
  }

  /** A declaration is sound if its name is made of small letters, digits and underscores, it has choices, each
      once, exactly if they are chosen from, its description is short, no secret has a default, and the default
      is a value that can be given. */
  lemma ValidateMeans(finite: Finite, input: ScriptInput)
    ensures Validate(finite, input) <==>
            && |input.name| > 0 && (forall c :: c in input.name ==> 'a' <= c <= 'z' || '0' <= c <= '9' || c == '_')
            && (|input.choices| > 0 <==> input.kind == Choice)
            && |set c | c in input.choices| == |input.choices|
            && (input.description.Some? ==>
                  |input.description.value| <= 1000 && forall c :: c in input.description.value ==> c as int != 0)
            && !(input.kind == Secret && input.defaultValue.Some?)
            && (input.defaultValue.Some? ==> CanBeGiven(finite, input, input.defaultValue.value))
  {
    NamesAreChars(input.name);
    DistinctCounts(input.choices);
    if input.defaultValue.Some? {
      CheckMeans(finite, input, input.defaultValue.value);
    }
  }

  lemma NamesAreChars(name: string)
    ensures IsInputName(name) <==>
            |name| > 0 && forall c :: c in name ==> 'a' <= c <= 'z' || '0' <= c <= '9' || c == '_'
  {
    if forall c :: c in name ==> 'a' <= c <= 'z' || '0' <= c <= '9' || c == '_' {
      forall i | 0 <= i < |name| ensures 'a' <= name[i] <= 'z' || IsDigit(name[i]) || name[i] == '_' {
        assert name[i] in name;
      }
    }
  }

  lemma {:induction false} DistinctCounts(items: seq<string>)
    ensures |set c | c in items| <= |items|
    ensures Distinct(items) <==> |set c | c in items| == |items|
  {
    if items == [] {
      assert (set c | c in items) == {};
    } else {
      var before, last := items[..|items| - 1], items[|items| - 1];
      DistinctCounts(before);
      assert items == before + [last];
      assert (set c | c in items) == (set c | c in before) + {last};
      if last in before {
        var i :| 0 <= i < |before| && before[i] == last;
        assert items[i] == items[|items| - 1];
      } else {
        assert Distinct(before) ==> Distinct(items);
        assert Distinct(items) ==> Distinct(before);
      }
    }
  }

  // ----- choosing and reading back -----------------------------------------------------------------

  type Pick = ScriptInput -> Option<string>

  /** Every input has a value that passes its check, or needs none. */
  predicate Fits(finite: Finite, inputs: seq<ScriptInput>, pick: Pick) {
    forall i :: 0 <= i < |inputs| ==>
      if pick(inputs[i]).Some? then Check(finite, inputs[i], pick(inputs[i]).value) else !inputs[i].required
  }

  /** The values picked for the inputs; a later one with the same name replaces an earlier one. */
  function Collected(inputs: seq<ScriptInput>, pick: Pick): Values {
    if inputs == [] then map[]
    else
      var before, last := Collected(inputs[..|inputs| - 1], pick), inputs[|inputs| - 1];
      if pick(last).Some? then before[last.name := pick(last).value] else before
  }

  /** How a deployment picks: from the machine's own values or the shared ones, as the input says. */
  function Deployed(shared: Values, own: Values): Pick {
    (input: ScriptInput) => ValueFrom(input, if input.perMachine then own else shared)
  }

  /** How a script picks: from the values stored with the task. */
  function Stored(values: Values): Pick {
    (input: ScriptInput) => ValueFrom(input, values)
  }

  function Declared(scripts: seq<seq<ScriptInput>>): seq<ScriptInput> {
    if scripts == [] then [] else scripts[0] + Declared(scripts[1..])
  }

  function FirstNamed(declared: seq<ScriptInput>, name: string): (first: Option<ScriptInput>)
    ensures first.None? <==> forall i :: 0 <= i < |declared| ==> declared[i].name != name
    ensures first.Some? ==> first.value in declared && first.value.name == name
  {
    if declared == [] then None
    else if declared[0].name == name then Some(declared[0]) else FirstNamed(declared[1..], name)
  }

  /** The name is declared, and its first declaration says where its values belong. */
  predicate BelongsTo(declared: seq<ScriptInput>, name: string, perMachine: bool) {
    var first := FirstNamed(declared, name);
    first.Some? && first.value.perMachine == perMachine
  }

  predicate SharedAllowed(declared: seq<ScriptInput>, shared: Values) {
    forall name :: name in shared ==> BelongsTo(declared, name, false)
  }

  predicate OwnAllowed(declared: seq<ScriptInput>, own: Values) {
    forall name :: name in own ==> BelongsTo(declared, name, true)
  }

  /** Declaration number `i` is the first of that name. */
  predicate IsFirstNamed(declared: seq<ScriptInput>, name: string, i: nat) {
    i < |declared| && declared[i].name == name && forall j :: 0 <= j < i ==> declared[j].name != name
  }

  lemma {:induction false} FirstIsFirst(declared: seq<ScriptInput>, name: string)
    requires FirstNamed(declared, name).Some?
    ensures exists i: nat :: IsFirstNamed(declared, name, i) && FirstNamed(declared, name) == Some(declared[i])
  {
    var i: nat := 0;
    if declared[0].name == name {
      assert IsFirstNamed(declared, name, i);
    } else {
      FirstIsFirst(declared[1..], name);
      var j: nat :| IsFirstNamed(declared[1..], name, j) && FirstNamed(declared[1..], name) == Some(declared[1..][j]);
      i := j + 1;
      forall k | 0 <= k < i ensures declared[k].name != name {
        assert k > 0 ==> declared[k] == declared[1..][k - 1];
      }
      assert IsFirstNamed(declared, name, i);
    }
  }

  /** A name belongs where its first declaration says. */
  lemma BelongsToMeans(declared: seq<ScriptInput>, name: string, perMachine: bool)
    ensures BelongsTo(declared, name, perMachine) <==>
            exists i: nat :: IsFirstNamed(declared, name, i) && declared[i].perMachine == perMachine
  {
    if FirstNamed(declared, name).Some? {
      FirstIsFirst(declared, name);
      var i: nat :| IsFirstNamed(declared, name, i) && FirstNamed(declared, name) == Some(declared[i]);
      forall j: nat | IsFirstNamed(declared, name, j) ensures j == i {
      }
    }
  }

  /** Values may be given for a deployment, shared or for one machine, under the names declared so. */
  lemma AllowedMeans(declared: seq<ScriptInput>, values: Values)
    ensures SharedAllowed(declared, values) <==> forall name :: name in values ==>
              exists i: nat :: IsFirstNamed(declared, name, i) && !declared[i].perMachine
    ensures OwnAllowed(declared, values) <==> forall name :: name in values ==>
              exists i: nat :: IsFirstNamed(declared, name, i) && declared[i].perMachine
  {
    forall name | name in values
      ensures BelongsTo(declared, name, false) <==>
              exists i: nat :: IsFirstNamed(declared, name, i) && !declared[i].perMachine
      ensures BelongsTo(declared, name, true) <==>
              exists i: nat :: IsFirstNamed(declared, name, i) && declared[i].perMachine
    {
      BelongsToMeans(declared, name, false);
      BelongsToMeans(declared, name, true);
    }
  }

  predicate PerMachineAllowed(declared: seq<ScriptInput>, hosts: seq<int>, perMachine: map<int, Values>) {
    forall host :: host in perMachine ==> host in hosts && OwnAllowed(declared, perMachine[host])
  }

  predicate OneScopePerName(declared: seq<ScriptInput>) {
    forall i :: 0 <= i < |declared| ==> BelongsTo(declared, declared[i].name, declared[i].perMachine)
  }

  function Own(perMachine: map<int, Values>, host: int): Values {
    if host in perMachine then perMachine[host] else map[]
  }

  /** The value that was given for the input on that machine: its own if it is chosen per machine, else the
      shared one; an empty one counts as none. */
  ghost predicate GivenOn(input: ScriptInput, shared: Values, perMachine: map<int, Values>, host: int, value: string) {
    && value != ""
    && if input.perMachine then host in perMachine && input.name in perMachine[host] && perMachine[host][input.name] == value
       else input.name in shared && shared[input.name] == value
  }

  /** An input's value on a machine is the one given, or its default when none is given. */
  lemma ChosenMeans(input: ScriptInput, shared: Values, perMachine: map<int, Values>, host: int, value: string)
    ensures Deployed(shared, Own(perMachine, host))(input) == Some(value) <==>
            || GivenOn(input, shared, perMachine, host, value)
            || (input.defaultValue == Some(value) && forall given :: !GivenOn(input, shared, perMachine, host, given))
  {
    var values := if input.perMachine then Own(perMachine, host) else shared;
    if Given(input.name, values).Some? {
      assert GivenOn(input, shared, perMachine, host, Given(input.name, values).value);
    }
  }

  /** When a deployment's inputs are accepted. */
  predicate Deployable(finite: Finite, scripts: seq<seq<ScriptInput>>, hosts: seq<int>, shared: Values,
                       perMachine: map<int, Values>) {
    var declared := Declared(scripts);
    && SharedAllowed(declared, shared) && PerMachineAllowed(declared, hosts, perMachine) && OneScopePerName(declared)
    && HostsFit(finite, declared, hosts, shared, perMachine)
  }

  /** One machine's values: checks them one by one. */
  method Collect(finite: Finite, inputs: seq<ScriptInput>, pick: Pick) returns (values: Option<Values>)
    ensures values == if Fits(finite, inputs, pick) then Some(Collected(inputs, pick)) else None
  {
    var chosen: Values := map[];
    var i := 0;
    while i < |inputs|
      invariant 0 <= i <= |inputs|
      invariant Fits(finite, inputs[..i], pick) && chosen == Collected(inputs[..i], pick)
    {
      var input := inputs[i];
      assert inputs[..i + 1][..i] == inputs[..i] && inputs[..i + 1][i] == input;
      var value := pick(input);
      if value.Some? {
        if !Check(finite, input, value.value) {
          return None;
        }
        chosen := chosen[input.name := value.value];
      } else if input.required {
        return None;
      }
      i := i + 1;
    }
    assert inputs[..i] == inputs;
    values := Some(chosen);
  }

  method SharedFit(declared: seq<ScriptInput>, values: Values, perMachine: bool) returns (ok: bool)
    ensures ok <==> forall name :: name in values ==> BelongsTo(declared, name, perMachine)
  {
    var names := values.Keys;
    while names != {}
      invariant names <= values.Keys
      invariant forall name :: name in values.Keys - names ==> BelongsTo(declared, name, perMachine)
      decreases names
    {
      assert (forall name :: name !in names) ==> names == {};
      var name :| name in names;
      var first := FirstNamed(declared, name);
      if first.None? || first.value.perMachine != perMachine {
        return false;
      }
      names := names - {name};
    }
    ok := true;
  }

  method PerMachineFit(declared: seq<ScriptInput>, hosts: seq<int>, perMachine: map<int, Values>) returns (ok: bool)
    ensures ok <==> PerMachineAllowed(declared, hosts, perMachine)
  {
    var ids := perMachine.Keys;
    while ids != {}
      invariant ids <= perMachine.Keys
      invariant forall id :: id in perMachine.Keys - ids ==> id in hosts && OwnAllowed(declared, perMachine[id])
      decreases ids
    {
      assert (forall id :: id !in ids) ==> ids == {};
      var id :| id in ids;
      if id !in hosts {
        return false;
      }
      var own := SharedFit(declared, perMachine[id], true);
      if !own {
        return false;
      }
      ids := ids - {id};
    }
    ok := true;
  }

  method ScopesFit(declared: seq<ScriptInput>) returns (ok: bool)
    ensures ok <==> OneScopePerName(declared)
  {
    var i := 0;
    while i < |declared|
      invariant 0 <= i <= |declared|
      invariant forall j :: 0 <= j < i ==> BelongsTo(declared, declared[j].name, declared[j].perMachine)
    {
      var first := FirstNamed(declared, declared[i].name);
      if first.Some? && first.value.perMachine != declared[i].perMachine {
        return false;
      }
      i := i + 1;
    }
    ok := true;
  }

  predicate HostsFit(finite: Finite, declared: seq<ScriptInput>, hosts: seq<int>, shared: Values,
                     perMachine: map<int, Values>) {
    forall i :: 0 <= i < |hosts| ==> Fits(finite, declared, Deployed(shared, Own(perMachine, hosts[i])))
  }

  /** Each of the hosts has the values chosen for it, and no other host has any. */
  ghost predicate Resolves(declared: seq<ScriptInput>, hosts: seq<int>, shared: Values, perMachine: map<int, Values>,
                           resolved: map<int, Values>) {
    && (forall host :: host in resolved <==> host in hosts)
    && forall host :: host in resolved ==>
         resolved[host] == Collected(declared, Deployed(shared, Own(perMachine, host)))
  }

  method ResolveHosts(finite: Finite, declared: seq<ScriptInput>, hosts: seq<int>, shared: Values,
                      perMachine: map<int, Values>)
    returns (resolved: Option<map<int, Values>>)
    ensures resolved.Some? <==> HostsFit(finite, declared, hosts, shared, perMachine)
    ensures resolved.Some? ==> Resolves(declared, hosts, shared, perMachine, resolved.value)
  {
    var chosen: map<int, Values> := map[];
    var i := 0;
    while i < |hosts|
      invariant 0 <= i <= |hosts|
      invariant HostsFit(finite, declared, hosts[..i], shared, perMachine)
      invariant Resolves(declared, hosts[..i], shared, perMachine, chosen)
    {
      var values := Collect(finite, declared, Deployed(shared, Own(perMachine, hosts[i])));
      if values.None? {
        return None;
      }
      assert hosts[..i + 1] == hosts[..i] + [hosts[i]];
      chosen := chosen[hosts[i] := values.value];
      i := i + 1;
    }
    assert hosts[..i] == hosts;
    resolved := Some(chosen);
  }

  /** Every machine's values, from what is shared and what is its own alone. */
  method ResolveInputs(finite: Finite, scripts: seq<seq<ScriptInput>>, hosts: seq<int>, shared: Values,
                       perMachine: map<int, Values>)
    returns (resolved: Option<map<int, Values>>)
    ensures resolved.Some? <==> Deployable(finite, scripts, hosts, shared, perMachine)
    ensures resolved.Some? ==> Resolves(Declared(scripts), hosts, shared, perMachine, resolved.value)
  {
    var declared := Declared(scripts);
    var ok := SharedFit(declared, shared, false);
    if !ok {
      return None;
    }
    ok := PerMachineFit(declared, hosts, perMachine);
    if !ok {
      return None;
    }
    ok := ScopesFit(declared);
    if !ok {
      return None;
    }
    resolved := ResolveHosts(finite, declared, hosts, shared, perMachine);
  }

  /** What a script finds in the values stored with the task. */
  method ScriptInputs(finite: Finite, inputs: seq<ScriptInput>, values: Values) returns (found: Option<Values>)
    ensures found == if Fits(finite, inputs, Stored(values)) then Some(Collected(inputs, Stored(values))) else None
  {
    found := Collect(finite, inputs, Stored(values));
  }

  // ----- stored values keep fitting ----------------------------------------------------------------

  /** What the last declaration of the name that picks anything picks. */
  function LastPicked(inputs: seq<ScriptInput>, pick: Pick, name: string): Option<string> {
    if inputs == [] then None
    else
      var last := inputs[|inputs| - 1];
      if last.name == name && pick(last).Some? then pick(last) else LastPicked(inputs[..|inputs| - 1], pick, name)
  }

  /** The default of the last declaration of the name that has one. */
  function LastDefault(declared: seq<ScriptInput>, name: string): Option<string> {
    LastPicked(declared, (input: ScriptInput) => input.defaultValue, name)
  }

  lemma {:induction false} CollectedIs(inputs: seq<ScriptInput>, pick: Pick, name: string)
    ensures name in Collected(inputs, pick) <==> LastPicked(inputs, pick, name).Some?
    ensures name in Collected(inputs, pick) ==> Some(Collected(inputs, pick)[name]) == LastPicked(inputs, pick, name)
  {
    if inputs != [] {
      CollectedIs(inputs[..|inputs| - 1], pick, name);
    }
  }

  lemma {:induction false} LastPickedOfOneScope(inputs: seq<ScriptInput>, pick: Pick, name: string, given: Option<string>)
    requires forall input :: input in inputs && input.name == name ==>
               pick(input) == if given.Some? then given else input.defaultValue
    ensures LastPicked(inputs, pick, name)
         == if given.Some? && FirstNamed(inputs, name).Some? then given else LastDefault(inputs, name)
  {
    if inputs != [] {
      var before, last := inputs[..|inputs| - 1], inputs[|inputs| - 1];
      LastPickedOfOneScope(before, pick, name, given);
      assert last in inputs;
      assert last.name == name ==> FirstNamed(inputs, name).Some?;
      assert last.name != name ==> (FirstNamed(inputs, name).Some? <==> FirstNamed(before, name).Some?) by {
        assert forall j :: 0 <= j < |before| ==> inputs[j] == before[j];
      }
      assert FirstNamed(before, name).None? ==> NoneNamed(before, name);
      if FirstNamed(before, name).None? {
        NothingPicked(before, name);
      }
    }
  }

  ghost predicate NoneNamed(inputs: seq<ScriptInput>, name: string) {
    forall i :: 0 <= i < |inputs| ==> inputs[i].name != name
  }

  lemma {:induction false} NothingPicked(inputs: seq<ScriptInput>, name: string)
    requires NoneNamed(inputs, name)
    ensures LastDefault(inputs, name).None?
  {
    if inputs != [] {
      NothingPicked(inputs[..|inputs| - 1], name);
    }
  }

  function Source(input: ScriptInput, shared: Values, own: Values): Values {
    if input.perMachine then own else shared
  }

  /** Nothing but a value given for the name, or one default for all its declarations, is stored. */
  predicate Agrees(declared: seq<ScriptInput>, shared: Values, own: Values, input: ScriptInput) {
    var last := LastDefault(declared, input.name);
    Given(input.name, Source(input, shared, own)).Some? || last.None? || last == Some("") || last == input.defaultValue
  }

  ghost predicate AllAgree(declared: seq<ScriptInput>, shared: Values, own: Values) {
    forall input :: input in declared ==> Agrees(declared, shared, own, input)
  }

  /** An input is read back as it was chosen exactly when its declarations agree. */
  lemma ReadsBackWhenAgreed(declared: seq<ScriptInput>, shared: Values, own: Values, input: ScriptInput)
    requires OneScopePerName(declared) && input in declared
    ensures Stored(Collected(declared, Deployed(shared, own)))(input) == Deployed(shared, own)(input)
       <==> Agrees(declared, shared, own, input)
  {
    var pick := Deployed(shared, own);
    var given := Given(input.name, Source(input, shared, own));
    var at :| 0 <= at < |declared| && declared[at] == input;
    forall other | other in declared && other.name == input.name
      ensures pick(other) == if given.Some? then given else other.defaultValue
    {
      var j :| 0 <= j < |declared| && declared[j] == other;
      assert BelongsTo(declared, input.name, declared[at].perMachine);
      assert BelongsTo(declared, input.name, declared[j].perMachine);
    }
    LastPickedOfOneScope(declared, pick, input.name, given);
    CollectedIs(declared, pick, input.name);
    assert FirstNamed(declared, input.name).Some?;
  }

  lemma {:induction false} SamePick(finite: Finite, inputs: seq<ScriptInput>, a: Pick, b: Pick)
    requires forall input :: input in inputs ==> a(input) == b(input)
    ensures Fits(finite, inputs, a) <==> Fits(finite, inputs, b)
    ensures Collected(inputs, a) == Collected(inputs, b)
  {
    assert forall i :: 0 <= i < |inputs| ==> inputs[i] in inputs;
    if inputs != [] {
      SamePick(finite, inputs[..|inputs| - 1], a, b);
    }
  }

  lemma {:induction false} PickedIs(inputs: seq<ScriptInput>, pick: Pick, i: nat)
    requires i < |inputs| && forall j, k :: 0 <= j < k < |inputs| ==> inputs[j].name != inputs[k].name
    ensures LastPicked(inputs, pick, inputs[i].name) == pick(inputs[i])
  {
    var before, last := inputs[..|inputs| - 1], inputs[|inputs| - 1];
    if i < |before| {
      PickedIs(before, pick, i);
    } else if pick(last).None? {
      NobodyPicks(before, pick, last.name);
    }
  }

  lemma {:induction false} NobodyPicks(inputs: seq<ScriptInput>, pick: Pick, name: string)
    requires NoneNamed(inputs, name)
    ensures LastPicked(inputs, pick, name).None?
  {
    if inputs != [] {
      NobodyPicks(inputs[..|inputs| - 1], pick, name);
    }
  }

  lemma {:induction false} DeclaredByScript(scripts: seq<seq<ScriptInput>>, input: ScriptInput)
    ensures input in Declared(scripts) <==> exists i :: 0 <= i < |scripts| && input in scripts[i]
  {
    if scripts != [] {
      DeclaredByScript(scripts[1..], input);
      assert input in scripts[0] ==> exists i :: 0 <= i < |scripts| && input in scripts[i];
      if i :| 0 <= i < |scripts[1..]| && input in scripts[1..][i] {
        assert scripts[i + 1] == scripts[1..][i];
      }
      if i :| 0 <= i < |scripts| && input in scripts[i] {
        assert i > 0 ==> scripts[1..][i - 1] == scripts[i];
      }
    }
  }

  /** Every script reads back exactly what was resolved for its inputs. */
  ghost predicate KeepFitting(finite: Finite, scripts: seq<seq<ScriptInput>>, shared: Values, own: Values) {
    var stored := Collected(Declared(scripts), Deployed(shared, own));
    forall i :: 0 <= i < |scripts| ==>
      && Fits(finite, scripts[i], Stored(stored))
      && Collected(scripts[i], Stored(stored)) == Collected(scripts[i], Deployed(shared, own))
  }

  lemma ScriptReadsBack(scripts: seq<seq<ScriptInput>>, i: nat, shared: Values, own: Values, input: ScriptInput)
    requires i < |scripts| && input in scripts[i] && OneScopePerName(Declared(scripts))
    requires forall j, k :: 0 <= j < k < |scripts[i]| ==> scripts[i][j].name != scripts[i][k].name
    requires var stored := Collected(Declared(scripts), Deployed(shared, own));
      Collected(scripts[i], Stored(stored)) == Collected(scripts[i], Deployed(shared, own))
    ensures Agrees(Declared(scripts), shared, own, input)
  {
    var inputs, chosen := scripts[i], Deployed(shared, own);
    var found := Stored(Collected(Declared(scripts), chosen));
    var j :| 0 <= j < |inputs| && inputs[j] == input;
    CollectedIs(inputs, chosen, input.name);
    CollectedIs(inputs, found, input.name);
    PickedIs(inputs, chosen, j);
    PickedIs(inputs, found, j);
    DeclaredByScript(scripts, input);
    ReadsBackWhenAgreed(Declared(scripts), shared, own, input);
  }

  /** The values resolved for a machine keep fitting every unchanged script, and give it exactly what was
      resolved for it, if and only if all declarations agree on what is stored. */
  lemma StoredInputsKeepFitting(finite: Finite, scripts: seq<seq<ScriptInput>>, shared: Values, own: Values)
    requires OneScopePerName(Declared(scripts)) && Fits(finite, Declared(scripts), Deployed(shared, own))
    requires forall i :: 0 <= i < |scripts| ==>
               forall j, k :: 0 <= j < k < |scripts[i]| ==> scripts[i][j].name != scripts[i][k].name
    ensures KeepFitting(finite, scripts, shared, own)
       <==> AllAgree(Declared(scripts), shared, own)
  {
    var declared, chosen := Declared(scripts), Deployed(shared, own);
    var found := Stored(Collected(declared, chosen));
    if KeepFitting(finite, scripts, shared, own) {
      forall input | input in declared ensures Agrees(declared, shared, own, input) {
        DeclaredByScript(scripts, input);
        var i :| 0 <= i < |scripts| && input in scripts[i];
        ScriptReadsBack(scripts, i, shared, own, input);
      }
      assert AllAgree(declared, shared, own);
    }
    if AllAgree(declared, shared, own) {
      forall i | 0 <= i < |scripts|
        ensures Fits(finite, scripts[i], found) && Collected(scripts[i], found) == Collected(scripts[i], chosen)
      {
        forall input | input in scripts[i] ensures input in declared && found(input) == chosen(input) {
          DeclaredByScript(scripts, input);
          ReadsBackWhenAgreed(declared, shared, own, input);
        }
        SamePick(finite, scripts[i], found, chosen);
        FitsPart(finite, declared, scripts[i], chosen);
      }
      assert KeepFitting(finite, scripts, shared, own);
    }
  }

  lemma FitsPart(finite: Finite, all: seq<ScriptInput>, part: seq<ScriptInput>, pick: Pick)
    requires Fits(finite, all, pick) && forall input :: input in part ==> input in all
    ensures Fits(finite, part, pick)
  {
    forall i | 0 <= i < |part|
      ensures if pick(part[i]).Some? then Check(finite, part[i], pick(part[i]).value) else !part[i].required
    {
      assert part[i] in part;
      var j :| 0 <= j < |all| && all[j] == part[i];
    }
  }

  /** In particular, equal defaults are enough. */
  lemma EqualDefaultsAgree(declared: seq<ScriptInput>, shared: Values, own: Values, input: ScriptInput)
    requires input in declared
    requires forall a, b :: a in declared && b in declared && a.name == b.name ==> a.defaultValue == b.defaultValue
    ensures Agrees(declared, shared, own, input)
  {
    LastDefaultIsADefault(declared, input.name);
  }

  lemma {:induction false} LastDefaultIsADefault(declared: seq<ScriptInput>, name: string)
    ensures LastDefault(declared, name).Some? ==>
            exists d :: d in declared && d.name == name && d.defaultValue == LastDefault(declared, name)
  {
    if declared != [] {
      LastDefaultIsADefault(declared[..|declared| - 1], name);
    }
  }

  /** Two scripts that declare `mode` with different defaults: the first one later reads the second
      one's, which its own choices refuse. */
  lemma LastDefaultWins(finite: Finite)
    ensures var scripts := [[ScriptInput("mode", "", None, Choice, true, Some("a"), false, ["a"])],
                            [ScriptInput("mode", "", None, Choice, true, Some("b"), false, ["b"])]];
      && Deployable(finite, scripts, [7], map[], map[])
      && !Fits(finite, scripts[0], Stored(Collected(Declared(scripts), Deployed(map[], map[]))))
  {
    var one := ScriptInput("mode", "", None, Choice, true, Some("a"), false, ["a"]);
    var two := ScriptInput("mode", "", None, Choice, true, Some("b"), false, ["b"]);
    var scripts := [[one], [two]];
    var pick := Deployed(map[], map[]);
    assert scripts[1..] == [[two]] && [[two]][1..] == [];
    assert Declared([[two]]) == [two] + Declared([]) == [two];
    assert Declared(scripts) == [one] + [two] == [one, two];
    var stored := Collected([one, two], pick);
    assert [one, two][..1] == [one];
    assert stored == Collected([one], pick)["mode" := "b"];
    assert stored["mode"] == "b";
    assert "b" !in ["a"];
    assert scripts[0][0] == one && Stored(stored)(one) == Some("b");
  }

}
