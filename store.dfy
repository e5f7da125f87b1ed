/**
 * The two stores the screens keep in memory: the projects, by name, and the
 * rate presets, by name. Each operation below says what the dictionary
 * becomes; the screens apply it to their fields.
 */
module Store {
  import opened Options
  import opened Text
  import opened Records

  /** The placeholders of a project's date range until dates are picked. */
  const StartDateUnset: string := "开始日期"
  const EndDateUnset: string := "结束日期"

  /** A project as the main screen keeps it: its date range and its stored records. */
  datatype Project = Project(startDate: string, endDate: string, records: seq<Record>)

  /** What a project starts as: both dates unset, no records. */
  const NewProject: Project := Project(StartDateUnset, EndDateUnset, [])

  /**
   * The project opened under `name`: a stored project is opened as it is
   * stored, so storing it back under its name leaves the store unchanged;
   * an unknown name opens a project with unset dates and no records.
   */
  function ProjectNamed(projects: map<string, Project>, name: string): (p: Project)
    ensures name in projects ==> projects[name := p] == projects
    ensures name !in projects ==> p.startDate == StartDateUnset && p.endDate == EndDateUnset && p.records == []
  {
    if name in projects then projects[name] else NewProject
  }

  /** The three ways `add_project` ends. */
  datatype AddOutcome = EmptyName | DuplicateName | Added(name: string)

  /** The outcome of adding a project from the text typed in the name field. */
  function AddOutcomeOf(projects: map<string, Project>, input: string): (o: AddOutcome)
    ensures o == EmptyName <==> AllSpace(input)
    ensures o == DuplicateName <==> !AllSpace(input) && Strip(input) in projects
    ensures o.Added? ==> o.name == Strip(input) && o.name != [] && o.name !in projects
  {
    var name := Strip(input);
    if name == [] then EmptyName
    else if name in projects then DuplicateName
    else Added(name)
  }

  /** The projects after the add: one new entry when it succeeded, otherwise the same map. */
  function ProjectsAfterAdd(projects: map<string, Project>, input: string): (p: map<string, Project>)
    ensures !AddOutcomeOf(projects, input).Added? ==> p == projects
    ensures AddOutcomeOf(projects, input).Added? ==>
      var name := AddOutcomeOf(projects, input).name;
      && p.Keys == projects.Keys + {name}
      && |p| == |projects| + 1
      && p[name] == NewProject
      && (forall k :: k in projects ==> p[k] == projects[k])
  {
    var o := AddOutcomeOf(projects, input);
    if o.Added? then projects[o.name := NewProject] else projects
  }

  /** Adding a name typed with surrounding blanks is adding the bare name. */
  lemma {:induction false} AddIgnoresBlanks(projects: map<string, Project>, input: string)
    ensures AddOutcomeOf(projects, Strip(input)) == AddOutcomeOf(projects, input)
    ensures ProjectsAfterAdd(projects, Strip(input)) == ProjectsAfterAdd(projects, input)
  {
    StripIdempotent(input);
    assert AllSpace(Strip(input)) <==> AllSpace(input);
    var o := AddOutcomeOf(projects, input);
    assert AddOutcomeOf(projects, Strip(input)) == o;
    if o.Added? {
      assert ProjectsAfterAdd(projects, Strip(input)) == projects[o.name := NewProject];
    }
  }

  /** Adding the same name a second time is refused, and changes nothing. */
  lemma {:induction false} AddTwice(projects: map<string, Project>, input: string)
    requires AddOutcomeOf(projects, input).Added?
    ensures AddOutcomeOf(ProjectsAfterAdd(projects, input), input) == DuplicateName
    ensures ProjectsAfterAdd(ProjectsAfterAdd(projects, input), input) == ProjectsAfterAdd(projects, input)
  {
  }

  /**
   * The presets after `update_rate(old_name, (new_name, rate))`; `None` is the
   * `KeyError` that `del` raises when the name to delete is not a preset.
   */
  function Renamed(rates: map<string, real>, oldName: string, newName: string, rate: real): (r: Option<map<string, real>>)
    ensures r.None? <==> oldName != newName && oldName !in rates
    ensures r.Some? ==> newName in r.value && r.value[newName] == rate
    ensures r.Some? && oldName != newName ==> oldName !in r.value
    ensures r.Some? ==> forall k :: k != oldName && k != newName ==> (k in r.value <==> k in rates)
    ensures r.Some? ==> forall k :: k in rates && k != oldName && k != newName ==> r.value[k] == rates[k]
  {
    if oldName != newName then
      if oldName in rates then Some((rates - {oldName})[newName := rate]) else None
    else
      Some(rates[newName := rate])
  }

  /** Keeping the name only overwrites its value: the set of presets stays the same. */
  lemma {:induction false} RenameToSameName(rates: map<string, real>, name: string, rate: real)
    requires name in rates
    ensures Renamed(rates, name, name, rate) == Some(rates[name := rate])
    ensures Renamed(rates, name, name, rate).value.Keys == rates.Keys
  {
  }

  /**
   * A real rename keeps the number of presets when the new name is free,
   * and loses one when it lands on another existing preset, whose value is
   * overwritten.
   */
  lemma {:induction false} RenameCount(rates: map<string, real>, oldName: string, newName: string, rate: real)
    requires oldName in rates && oldName != newName
    ensures var r := Renamed(rates, oldName, newName, rate).value;
      && r.Keys == rates.Keys - {oldName} + {newName}
      && |r| == (if newName in rates then |rates| - 1 else |rates|)
  {
    var r := Renamed(rates, oldName, newName, rate).value;
    assert r.Keys == rates.Keys - {oldName} + {newName};
    if newName in rates {
      assert r.Keys == rates.Keys - {oldName};
    } else {
      assert |r.Keys| == |rates.Keys - {oldName}| + 1;
    }
  }

  /** Renaming back restores the presets when the new name was free. */
  lemma {:induction false} RenameBack(rates: map<string, real>, oldName: string, newName: string, rate: real)
    requires oldName in rates && newName !in rates && oldName != newName
    ensures Renamed(Renamed(rates, oldName, newName, rate).value, newName, oldName, rates[oldName]) == Some(rates)
  {
    var r := Renamed(rates, oldName, newName, rate).value;
    var back := Renamed(r, newName, oldName, rates[oldName]).value;
    assert back.Keys == rates.Keys;
    forall k | k in rates ensures back[k] == rates[k] {
    }
    assert back == rates;
  }
}
