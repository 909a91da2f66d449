/**
 * The project context the chat page sends with every message: the stored
 * project, the stored milestones with their progress figures, the
 * reflections written for completed milestones, and the milestone the
 * learner is on.
 *
 * Storage is a map from key to string; `JSON.parse` is a pair of
 * parameters (`None` when it throws).
 */
module ChatContext {
  import opened Text
  import opened Json
  import opened Progress
  import opened Catalog

  const ProjectKey: string := "current_project"
  const MilestonesKey: string := "milestones"
  const AllComplete: string := "All complete!"

  /** The project assumed while nothing usable is stored. */
  const DefaultProject: JValue := JObj(map["title" := JStr("Decentralized Voting App")])

  /** `{ milestone, reflection }` */
  datatype Note = Note(milestone: string, reflection: string)

  /** The `reflections` field: still the initial `{}`, or the list built from the milestones. */
  datatype Reflections = Unset | Notes(notes: seq<Note>)

  /** What the `try` block leaves behind. */
  datatype Loaded = Loaded(project: JValue, milestones: seq<Milestone>, reflections: Reflections)

  /** `localStorage.getItem(key)` used in an `if`: a missing or empty entry is skipped. */
  function Stored(store: map<string, string>, key: string): (r: Option<string>)
    ensures r.Some? <==> key in store && store[key] != ""
    ensures r.Some? ==> r.value == store[key]
  {
    if key in store && store[key] != "" then Some(store[key]) else None
  }

  /** One note per completed milestone with a non-empty stored reflection, in list order. */
  function ReflectionNotes(ms: seq<Milestone>, store: map<string, string>): (r: seq<Note>)
    ensures var idx := Indices(ms, HasReflection(store));
            && |r| == |idx|
            && forall k :: 0 <= k < |idx| ==>
                 && idx[k] < |ms| && ms[idx[k]].complete
                 && ReflectionKey(idx[k]) in store
                 && r[k] == Note(ms[idx[k]].title, store[ReflectionKey(idx[k])])
  {
    var idx := Indices(ms, HasReflection(store));
    seq(|idx|, k requires 0 <= k < |idx| => Note(ms[idx[k]].title, StoredReflection(store, idx[k]).value))
  }

  /** The stored project is missing, or parses: the `try` block goes on to the milestones. */
  predicate ProjectLoads(store: map<string, string>, parseProject: string -> Option<JValue>) {
    Stored(store, ProjectKey).None? || parseProject(Stored(store, ProjectKey).value).Some?
  }

  /**
   * The `try` block: a stored project that fails to parse stops it before
   * the milestones are read, and milestones that fail to parse stop it
   * before the reflections are collected; whatever was set by then stays.
   */
  function Load(store: map<string, string>, parseProject: string -> Option<JValue>,
                parseMilestones: string -> Option<seq<Milestone>>): (r: Loaded)
    ensures Stored(store, ProjectKey).Some? && parseProject(Stored(store, ProjectKey).value).None? ==>
              r == Loaded(DefaultProject, [], Unset)
    ensures Stored(store, ProjectKey).None? ==> r.project == DefaultProject
    ensures Stored(store, ProjectKey).Some? && parseProject(Stored(store, ProjectKey).value).Some? ==>
              r.project == parseProject(Stored(store, ProjectKey).value).value
    ensures r.reflections.Notes? ==> r.reflections.notes == ReflectionNotes(r.milestones, store)
    ensures ProjectLoads(store, parseProject) && Stored(store, MilestonesKey).None? ==>
              r.milestones == [] && r.reflections == Notes([])
    ensures ProjectLoads(store, parseProject) && Stored(store, MilestonesKey).Some? &&
            parseMilestones(Stored(store, MilestonesKey).value).None? ==>
              r.milestones == [] && r.reflections == Unset
    ensures ProjectLoads(store, parseProject) && Stored(store, MilestonesKey).Some? &&
            parseMilestones(Stored(store, MilestonesKey).value).Some? ==>
              && r.milestones == parseMilestones(Stored(store, MilestonesKey).value).value
              && r.reflections == Notes(ReflectionNotes(r.milestones, store))
    ensures r.milestones != [] ==>
              && r.reflections.Notes?
              && Stored(store, MilestonesKey).Some?
              && parseMilestones(Stored(store, MilestonesKey).value) == Some(r.milestones)
  {
    var project :=
      match Stored(store, ProjectKey)
      case None => Some(DefaultProject)
      case Some(text) => parseProject(text);
    match project
    case None => Loaded(DefaultProject, [], Unset)
    case Some(p) =>
      var milestones :=
        match Stored(store, MilestonesKey)
        case None => Some([])
        case Some(text) => parseMilestones(text);
      match milestones
      case None => Loaded(p, [], Unset)
      case Some(ms) => Loaded(p, ms, Notes(ReflectionNotes(ms, store)))
  }

  /** `milestones.find(m => !m.complete)?.title || 'All complete!'` */
  function CurrentMilestone(ms: seq<Milestone>): (r: string)
    ensures (forall i :: 0 <= i < |ms| ==> ms[i].complete) ==> r == AllComplete
    ensures forall i :: (0 <= i < |ms| && !ms[i].complete && ms[i].title != "" &&
                         (forall j :: 0 <= j < i ==> ms[j].complete)) ==> r == ms[i].title
    ensures forall i :: (0 <= i < |ms| && !ms[i].complete && ms[i].title == "" &&
                         (forall j :: 0 <= j < i ==> ms[j].complete)) ==> r == AllComplete
  {
    match FirstIncomplete(ms)
    case None => AllComplete
    case Some(i) => if ms[i].title != "" then ms[i].title else AllComplete
  }

  function ReflectionsJson(r: Reflections): JValue {
    match r
    case Unset => JObj(map[])
    case Notes(notes) =>
      JArr(seq(|notes|, k requires 0 <= k < |notes| =>
        JObj(map["milestone" := JStr(notes[k].milestone), "reflection" := JStr(notes[k].reflection)])))
  }

  /** The fields the page adds on top of the stored project. */
  function Derived(l: Loaded): map<string, JValue> {
    map[
      "milestones" := MilestonesJson(l.milestones),
      "progress" := JNum(ProgressPercent(l.milestones)),
      "completedCount" := JNum(Done(l.milestones)),
      "totalCount" := JNum(|l.milestones|),
      "reflections" := ReflectionsJson(l.reflections),
      "currentMilestone" := JStr(CurrentMilestone(l.milestones))]
  }

  /** `{ ...projectContext, milestones, progress, ... }`: the added fields win over the project's own. */
  function Enhanced(l: Loaded): (v: JValue)
    ensures v.JObj?
    ensures forall k :: k in Derived(l) ==> k in v.fields && v.fields[k] == Derived(l)[k]
    ensures forall k :: k in Spread(l.project) && k !in Derived(l) ==> k in v.fields && v.fields[k] == Spread(l.project)[k]
    ensures forall k :: k in v.fields ==> k in Derived(l) || k in Spread(l.project)
  {
    JObj(Spread(l.project) + Derived(l))
  }

  /** The context of one send. */
  function EnhancedContext(store: map<string, string>, parseProject: string -> Option<JValue>,
                           parseMilestones: string -> Option<seq<Milestone>>): JValue {
    Enhanced(Load(store, parseProject, parseMilestones))
  }

  /**
   * The figures sent to the coach are the dashboard's: the completed
   * count, the total and the rounded percentage of the loaded list, and
   * the percentage is 100 or 0 at the two ends.
   */
  lemma ContextFigures(l: Loaded)
    ensures var v := Enhanced(l).fields;
            && v["completedCount"] == JNum(|Completed(l.milestones)|)
            && v["totalCount"] == JNum(|l.milestones|)
            && v["progress"].JNum? && 0 <= v["progress"].n <= 100
            && (|l.milestones| > 0 && (forall i :: 0 <= i < |l.milestones| ==> l.milestones[i].complete) ==> v["progress"] == JNum(100))
            && ((forall i :: 0 <= i < |l.milestones| ==> !l.milestones[i].complete) ==> v["progress"] == JNum(0))
  {
    DerivedFigures(l);
    PercentOfFlags(l.milestones);
  }

  lemma DerivedFigures(l: Loaded)
    ensures var d := Derived(l);
            && "completedCount" in d && d["completedCount"] == JNum(Done(l.milestones))
            && "totalCount" in d && d["totalCount"] == JNum(|l.milestones|)
            && "progress" in d && d["progress"] == JNum(ProgressPercent(l.milestones))
  {
  }

  /** A stored project that does not parse also hides the stored milestones: the coach sees no progress at all. */
  lemma UnparseableProjectHidesMilestones(store: map<string, string>, parseProject: string -> Option<JValue>,
                                          parseMilestones: string -> Option<seq<Milestone>>)
    requires Stored(store, ProjectKey).Some? && parseProject(Stored(store, ProjectKey).value).None?
    ensures var v := EnhancedContext(store, parseProject, parseMilestones).fields;
            && v["totalCount"] == JNum(0) && v["progress"] == JNum(0)
            && v["currentMilestone"] == JStr(AllComplete)
            && v["reflections"] == JObj(map[])
            && v["title"] == JStr("Decentralized Voting App")
  {
  }

  /** "All complete!" is also what an empty list, or an open milestone without a title, reports. */
  lemma AllCompleteIsNotAllDone()
    ensures CurrentMilestone([]) == AllComplete
    ensures CurrentMilestone([Milestone("", "", false)]) == AllComplete
  {
  }
}
