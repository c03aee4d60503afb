/** The roadmap generator: the goal and skills inputs, the comma-separated skills parser,
    the "title: description" rendering of the generated steps, and the form's states
    (form shown, loading, result or error, and back to the form on reset). */
module Roadmap {
  import opened Wrappers
  import opened Strings

  /** One generated step. */
  datatype Step = Step(title: string, description: string)

  /** The body posted to `generate-roadmap`: `{goal, skills}`. */
  datatype RoadmapRequest = RoadmapRequest(goal: string, skills: seq<string>)

  /** What `generate-roadmap` returns: `{error}`, or data whose `roadmap` field is a list
      of steps or missing (a `null` data object throws on the field read, which ends the
      same way as a missing field). */
  datatype Generation = GenerateFailed(message: string) | Generated(roadmap: Option<seq<Step>>)

  const GoalMissing: string := "Please enter a goal."
  const GenerationFailed: string := "Failed to generate roadmap. Please try again."

  /** `parts.map(p => p.trim())`. */
  function TrimEach(parts: seq<string>): (r: seq<string>)
    ensures |r| == |parts|
  {
    seq(|parts|, i requires 0 <= i < |parts| => Trim(parts[i]))
  }

  /** `parts.filter(p => p)`: the non-empty strings, in order. */
  function KeepNonEmpty(parts: seq<string>): (r: seq<string>)
    ensures |r| <= |parts|
    ensures forall i :: 0 <= i < |r| ==> r[i] != [] && r[i] in parts
  {
    if parts == [] then []
    else (if parts[0] == [] then [] else [parts[0]]) + KeepNonEmpty(parts[1..])
  }

  /** `skills.split(',').map(skill => skill.trim()).filter(skill => skill)`. */
  function ParseSkills(skills: string): (r: seq<string>)
    ensures |r| <= Count(skills, ',') + 1
  {
    KeepNonEmpty(TrimEach(Split(skills, ',')))
  }

  /** A trimmed string holds only characters of the original. */
  lemma TrimmedCharsComeFromInput(s: string, c: char)
    requires c in Trim(s)
    ensures c in s
  {
    TrimSpec(s);
    var i, j :| 0 <= i <= j <= |s| && Trim(s) == s[i..j];
    var k :| 0 <= k < |Trim(s)| && Trim(s)[k] == c;
    assert s[i + k] == c;
  }

  /** Every parsed skill is non-empty, has no whitespace at either end and holds no
      comma. */
  lemma ParsedSkillShape(skills: string, x: string)
    requires x in ParseSkills(skills)
    ensures x != [] && IsTrimmed(x) && ',' !in x
  {
    var parts := Split(skills, ',');
    var i :| 0 <= i < |TrimEach(parts)| && TrimEach(parts)[i] == x;
    assert x == Trim(parts[i]);
    TrimSpec(parts[i]);
    if ',' in x {
      TrimmedCharsComeFromInput(parts[i], ',');
    }
  }

  /** Filtering a concatenation concatenates the filtered parts. */
  lemma {:induction false} KeepNonEmptyAppend(a: seq<string>, b: seq<string>)
    ensures KeepNonEmpty(a + b) == KeepNonEmpty(a) + KeepNonEmpty(b)
  {
    if a == [] {
      assert a + b == b;
    } else {
      assert (a + b)[1..] == a[1..] + b;
      KeepNonEmptyAppend(a[1..], b);
    }
  }

  /** The parser keeps the input order: the skills of `a + "," + b` are those of `a`
      followed by those of `b`. */
  lemma ParseSkillsAppend(a: string, b: string)
    ensures ParseSkills(a + "," + b) == ParseSkills(a) + ParseSkills(b)
  {
    SplitAppend(a, b, ',');
    var pa, pb := Split(a, ','), Split(b, ',');
    assert TrimEach(pa + pb) == TrimEach(pa) + TrimEach(pb);
    KeepNonEmptyAppend(TrimEach(pa), TrimEach(pb));
  }

  /** Non-empty, trimmed, comma-free names joined with commas parse back to the same
      list (the empty list included). */
  lemma ParseSkillsJoin(names: seq<string>)
    requires forall i :: 0 <= i < |names| ==> names[i] != [] && IsTrimmed(names[i]) && ',' !in names[i]
    ensures ParseSkills(Join(names, ",")) == names
  {
    if names == [] {
      assert Split([], ',') == [[]];
      assert TrimEach([[]]) == [[]];
    } else {
      SplitJoin(names, ',');
      TrimEachOfTrimmed(names);
      KeepsAllNonEmpty(names);
    }
  }

  /** Trimming strings that have no whitespace at either end changes none of them. */
  lemma TrimEachOfTrimmed(names: seq<string>)
    requires forall i :: 0 <= i < |names| ==> IsTrimmed(names[i])
    ensures TrimEach(names) == names
  {
    forall i | 0 <= i < |names|
      ensures Trim(names[i]) == names[i]
    {
      TrimOfTrimmed(names[i]);
    }
  }

  /** A list of non-empty strings passes the filter whole. */
  lemma {:induction false} KeepsAllNonEmpty(parts: seq<string>)
    requires forall i :: 0 <= i < |parts| ==> parts[i] != []
    ensures KeepNonEmpty(parts) == parts
  {
    if parts != [] {
      KeepsAllNonEmpty(parts[1..]);
    }
  }

  /** `${step.title}: ${step.description}`. */
  function StepLine(step: Step): (r: string)
    ensures |r| == |step.title| + 2 + |step.description|
    ensures r[..|step.title|] == step.title && r[|step.title| + 2..] == step.description
    ensures r[|step.title|..|step.title| + 2] == ": "
  {
    step.title + ": " + step.description
  }

  /** `roadmap.map(step => ...)`. */
  function StepLines(steps: seq<Step>): (r: seq<string>)
    ensures |r| == |steps|
  {
    seq(|steps|, i requires 0 <= i < |steps| => StepLine(steps[i]))
  }

  /** The roadmap text: one line per step, joined by "\n". */
  function RoadmapText(steps: seq<Step>): (r: string)
    ensures r == [] <==> steps == []
  {
    Join(StepLines(steps), "\n")
  }

  /** When no title or description holds a line break, the roadmap text splits back into
      exactly one rendered line per step, in step order. */
  lemma RoadmapTextLines(steps: seq<Step>)
    requires steps != []
    requires forall i :: 0 <= i < |steps| ==> '\n' !in steps[i].title && '\n' !in steps[i].description
    ensures Split(RoadmapText(steps), '\n') == StepLines(steps)
  {
    var lines := StepLines(steps);
    forall i | 0 <= i < |lines|
      ensures '\n' !in lines[i]
    {
      assert lines[i] == steps[i].title + ": " + steps[i].description;
    }
    SplitJoin(lines, '\n');
  }

  class RoadmapForm {
    var goal: string
    var skills: string
    var roadmap: Option<seq<Step>>
    var loading: bool
    var error: Option<string>
    var showForm: bool

    /** The form as it first appears and as `handleReset` leaves it. */
    predicate ShowsEmptyForm()
      reads this
    {
      showForm && roadmap.None? && error.None? && goal == [] && skills == []
    }

    constructor()
      ensures ShowsEmptyForm() && !loading
    {
      goal, skills := [], [];
      roadmap, error := None, None;
      loading, showForm := false, true;
    }

    /** The synchronous part of `handleGenerateRoadmap`. A blank goal only sets the
        validation error; otherwise the form hides, loading starts, the old roadmap and
        error are cleared, and the request carries the goal and the parsed skills. */
    method Submit() returns (request: Option<RoadmapRequest>)
      modifies this
      ensures goal == old(goal) && skills == old(skills)
      ensures Trim(goal) == [] ==>
        && request == None && error == Some(GoalMissing)
        && roadmap == old(roadmap) && loading == old(loading) && showForm == old(showForm)
      ensures Trim(goal) != [] ==>
        && request == Some(RoadmapRequest(goal, ParseSkills(skills)))
        && loading && error == None && roadmap == None && !showForm
    {
      if Trim(goal) == [] {
        error := Some(GoalMissing);
        return None;
      }
      loading := true;
      error := None;
      roadmap := None;
      showForm := false;
      request := Some(RoadmapRequest(goal, ParseSkills(skills)));
    }

    /** The asynchronous part: a returned roadmap is shown and, when there is a callback,
        the goal and raw skills text captured at submit, and the roadmap text, go to it; a
        failed call or a missing roadmap sets the failure message. Loading ends either way.
        The captured values are parameters because the fields may have been reset since. */
    method Complete(submittedGoal: string, submittedSkills: string, outcome: Generation, hasCallback: bool)
      returns (notified: Option<string>)
      modifies this
      ensures !loading
      ensures goal == old(goal) && skills == old(skills) && showForm == old(showForm)
      ensures outcome.Generated? && outcome.roadmap.Some? ==>
        && roadmap == outcome.roadmap && error == old(error)
        && notified == if hasCallback
                       then Some(submittedGoal + " " + submittedSkills + " " + RoadmapText(outcome.roadmap.value))
                       else None
      ensures !(outcome.Generated? && outcome.roadmap.Some?) ==>
        && roadmap == old(roadmap) && error == Some(GenerationFailed) && notified == None
    {
      notified := None;
      if outcome.Generated? && outcome.roadmap.Some? {
        var steps := outcome.roadmap.value;
        roadmap := Some(steps);
        if hasCallback {
          notified := Some(submittedGoal + " " + submittedSkills + " " + RoadmapText(steps));
        }
      } else {
        error := Some(GenerationFailed);
      }
      loading := false;
    }

    /** `handleGenerateRoadmap`: validation, then the whole call. After a valid submit
        exactly one of the roadmap and the error is set, and loading has ended. */
    method HandleGenerateRoadmap(outcome: Generation, hasCallback: bool)
      returns (request: Option<RoadmapRequest>, notified: Option<string>)
      modifies this
      ensures request == None <==> Trim(old(goal)) == []
      ensures request == None ==>
        && error == Some(GoalMissing) && notified == None
        && roadmap == old(roadmap) && loading == old(loading) && showForm == old(showForm)
      ensures request.Some? ==>
        && request.value == RoadmapRequest(old(goal), ParseSkills(old(skills)))
        && !loading && !showForm
        && (roadmap.Some? <==> error.None?)
        && (roadmap.Some? <==> outcome.Generated? && outcome.roadmap.Some?)
        && (roadmap.Some? ==> roadmap == outcome.roadmap)
        && (error.Some? ==> error == Some(GenerationFailed))
        && notified == if hasCallback && roadmap.Some?
                       then Some(old(goal) + " " + old(skills) + " " + RoadmapText(roadmap.value))
                       else None
      ensures goal == old(goal) && skills == old(skills)
    {
      var submittedGoal, submittedSkills := goal, skills;
      request := Submit();
      notified := None;
      if request.Some? {
        notified := Complete(submittedGoal, submittedSkills, outcome, hasCallback);
      }
    }

    /** `handleReset`: back to the empty form; the loading flag is left as it is. */
    method Reset()
      modifies this
      ensures ShowsEmptyForm() && loading == old(loading)
    {
      showForm := true;
      roadmap := None;
      error := None;
      goal := [];
      skills := [];
    }
  }
}
