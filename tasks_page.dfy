/** The task list and board (frontend/src/pages/Tasks.jsx): the checklist
    editor of the task form, the form's validation and numeric coercion, the
    overdue marker and the board's stage columns. */
module TasksPage {
  import opened Common
  import opened Text
  import opened Records
  import Seqs
  import Forms

  // ---------------------------------------------------------------------------
  // checklist

  datatype CheckItem = CheckItem(text: string, done: bool)

  /** The checklist after `addCheckItem` with `input` in the new-item box:
      a blank input adds nothing, anything else adds its trimmed text,
      not done, at the end. */
  function WithItem(cl: seq<CheckItem>, input: string): (r: seq<CheckItem>)
    ensures IsBlank(input) ==> r == cl
    ensures !IsBlank(input) ==> |r| == |cl| + 1 && r[..|cl|] == cl
                                && r[|cl|] == CheckItem(Trim(input), false)
  {
    TrimEmptyIffBlank(input);
    if Trim(input) == "" then cl else cl + [CheckItem(Trim(input), false)]
  }

  /** The checklist after `toggleCheckItem(idx)`. */
  function Toggled(cl: seq<CheckItem>, idx: nat): (r: seq<CheckItem>)
    requires idx < |cl|
    ensures |r| == |cl| && r[idx].text == cl[idx].text && r[idx].done == !cl[idx].done
    ensures forall j :: 0 <= j < |cl| && j != idx ==> r[j] == cl[j]
  {
    cl[idx := cl[idx].(done := !cl[idx].done)]
  }

  /** The checklist after `removeCheckItem(idx)`: the items at every other
      position; an index past the end removes nothing. */
  function Removed(cl: seq<CheckItem>, idx: nat): (r: seq<CheckItem>)
    ensures idx >= |cl| ==> r == cl
    ensures idx < |cl| ==> |r| == |cl| - 1
                           && (forall j :: 0 <= j < idx ==> r[j] == cl[j])
                           && (forall j :: idx <= j < |r| ==> r[j] == cl[j + 1])
  {
    if idx < |cl| then cl[..idx] + cl[idx + 1..] else cl
  }

  /** Toggling the same item twice restores the list. */
  lemma ToggleTwice(cl: seq<CheckItem>, idx: nat)
    requires idx < |cl|
    ensures Toggled(Toggled(cl, idx), idx) == cl
  {
    var r := Toggled(Toggled(cl, idx), idx);
    assert forall j :: 0 <= j < |cl| ==> r[j] == cl[j];
  }

  /** Removing an item keeps every other one, with nothing added: the
      remaining items together with the removed one are the old list. */
  lemma RemoveKeepsOthers(cl: seq<CheckItem>, idx: nat)
    requires idx < |cl|
    ensures multiset(Removed(cl, idx)) + multiset{cl[idx]} == multiset(cl)
  {
    assert cl == cl[..idx] + [cl[idx]] + cl[idx + 1..];
  }

  /** Removing the item just added restores the list. */
  lemma RemoveUndoesAdd(cl: seq<CheckItem>, input: string)
    requires !IsBlank(input)
    ensures Removed(WithItem(cl, input), |cl|) == cl
  {
  }

  /** The task form's text fields that the handlers read. */
  class TaskEditor {
    var title: string
    var checklist: seq<CheckItem>
    var newCheckItem: string

    /** `openCreate`: an empty form. */
    constructor ()
      ensures title == "" && checklist == [] && newCheckItem == ""
    {
      title, checklist, newCheckItem := "", [], "";
    }

    /** `addCheckItem`: a blank input is ignored; otherwise the item is
        appended and the input cleared. */
    method AddCheckItem()
      modifies this`checklist, this`newCheckItem
      ensures checklist == WithItem(old(checklist), old(newCheckItem))
      ensures newCheckItem == if IsBlank(old(newCheckItem)) then old(newCheckItem) else ""
    {
      var text := Trim(newCheckItem);
      TrimEmptyIffBlank(newCheckItem);
      if text != "" {
        checklist := checklist + [CheckItem(text, false)];
        newCheckItem := "";
      }
    }

    /** `toggleCheckItem`: copies the list and flips the item at `idx`. */
    method ToggleCheckItem(idx: nat)
      requires idx < |checklist|
      modifies this`checklist
      ensures checklist == Toggled(old(checklist), idx)
    {
      var cl := checklist;
      cl := cl[idx := CheckItem(cl[idx].text, !cl[idx].done)];
      checklist := cl;
    }

    /** `removeCheckItem`: keeps the items at every other index. */
    method RemoveCheckItem(idx: nat)
      modifies this`checklist
      ensures checklist == Removed(old(checklist), idx)
    {
      checklist := Removed(checklist, idx);
    }
  }

  // ---------------------------------------------------------------------------
  // validation and coercion

  const TitleRequired: string := "Title is required"

  /** `validateForm`: the only rule is a title that is not blank. */
  function TitleError(title: string): (e: Option<string>)
    ensures e.None? <==> Trim(title) != ""
    ensures e.Some? ==> e.value == TitleRequired
  {
    if Trim(title) == "" then Some(TitleRequired) else None
  }

  /** A title is accepted iff it holds a character other than white space. */
  lemma TitleValidIff(title: string)
    ensures TitleError(title).None? <==> !IsBlank(title)
  {
    TrimEmptyIffBlank(title);
  }

  /** The numeric inputs of the form as typed. */
  datatype HoursForm = HoursForm(plannedHours: string, loggedHours: string, progress: string)

  datatype HoursPayload = HoursPayload(plannedHours: int, loggedHours: int, progress: int)

  /** `Number(x) || 0` on each of the three inputs. */
  function Coerce(f: HoursForm): (p: HoursPayload)
    ensures p.plannedHours >= 0 && p.loggedHours >= 0 && p.progress >= 0
  {
    HoursPayload(Forms.NumberOr(f.plannedHours, 0), Forms.NumberOr(f.loggedHours, 0), Forms.NumberOr(f.progress, 0))
  }

  /** Blank inputs are saved as 0, and a number written in decimal is saved
      as that number. */
  lemma CoerceBlankAndDecimal(f: HoursForm, n: nat)
    ensures IsBlank(f.plannedHours) ==> Coerce(f).plannedHours == 0
    ensures IsBlank(f.loggedHours) ==> Coerce(f).loggedHours == 0
    ensures IsBlank(f.progress) ==> Coerce(f).progress == 0
    ensures Coerce(HoursForm(NatToString(n), NatToString(n), NatToString(n))) == HoursPayload(n, n, n)
  {
    var p := Coerce(f);
    Forms.NumberOrDefault(f.plannedHours, 0);
    Forms.NumberOrDefault(f.loggedHours, 0);
    Forms.NumberOrDefault(f.progress, 0);
    assert p.plannedHours == Forms.NumberOr(f.plannedHours, 0);
    assert p.loggedHours == Forms.NumberOr(f.loggedHours, 0);
    assert p.progress == Forms.NumberOr(f.progress, 0);
    var s := NatToString(n);
    Forms.NumberOfDecimal(n);
    assert Forms.NumberOr(s, 0) == n;
    assert Coerce(HoursForm(s, s, s)) == HoursPayload(n, n, n);
  }

  // ---------------------------------------------------------------------------
  // overdue marker

  /** The red deadline of a row: a deadline before `now` on a task that is
      not Done. */
  predicate Overdue(t: TaskRec, now: int) {
    t.deadline.Some? && t.deadline.value < now && t.stage != "Done"
  }

  /** The dashboard's count of overdue tasks (backend/routes/stats.js):
      a deadline before `now` and a stage other than Done and Dropped. */
  predicate CountedOverdue(t: TaskRec, now: int) {
    t.deadline.Some? && t.deadline.value < now && t.stage != "Done" && t.stage != "Dropped"
  }

  /** The page marks every task the dashboard counts, and in addition only
      the late Dropped tasks; a Done task is never marked. */
  lemma OverdueVersusCount(t: TaskRec, now: int)
    ensures Overdue(t, now) <==> CountedOverdue(t, now) || (t.stage == "Dropped" && t.deadline.Some? && t.deadline.value < now)
    ensures t.stage == "Done" ==> !Overdue(t, now)
  {
  }

  // ---------------------------------------------------------------------------
  // board

  /** The page's stage list, which is not the schema's. */
  const Stages: seq<string> := ["Backlog", "To Do", "In Progress", "In Review", "Blocked", "Done"]

  /** The stage enum of the task schema. */
  const SchemaStages: seq<string> := ["Backlog", "Todo", "In Progress", "Review", "Done", "Dropped"]

  function AtStage(stage: string): TaskRec -> bool {
    (t: TaskRec) => t.stage == stage
  }

  /** The board column of `stage`. */
  function Column(tasks: seq<TaskRec>, stage: string): (r: seq<TaskRec>)
    ensures forall t :: t in r <==> t in tasks && t.stage == stage
  {
    Seqs.Filter(tasks, AtStage(stage))
  }

  /** A task shows on the board iff its stage is one of the page's stages,
      and then in that column only; tasks the schema files as Todo, Review
      or Dropped show in no column. */
  lemma BoardPlacement(tasks: seq<TaskRec>, t: TaskRec)
    requires t in tasks
    ensures (exists s :: s in Stages && t in Column(tasks, s)) <==> t.stage in Stages
    ensures forall s :: s in Stages && s != t.stage ==> t !in Column(tasks, s)
    ensures t.stage in {"Todo", "Review", "Dropped"} ==> forall s :: s in Stages ==> t !in Column(tasks, s)
  {
    if t.stage in Stages {
      assert t in Column(tasks, t.stage);
    }
  }

  /** Of the schema's stages, only Backlog, In Progress and Done have a
      column. */
  lemma SchemaStagesOnBoard()
    ensures forall s :: s in SchemaStages ==> (s in Stages <==> s in {"Backlog", "In Progress", "Done"})
  {
  }
}
