/**
  The rule table: an ordered list of `Rule` records keyed by the sender's
  user id, with exact-match lookup and the validated add, update and remove
  actions of the main window. The form's entry fields are plain inputs here,
  and a rejected action (the message box) leaves the list as it was.
 */
module RuleTable {
  import opened Wrappers
  import opened PyText

  /** One alert binding: who triggers it, what it plays and how loud. */
  datatype Rule = Rule(
    name: string,
    userId: string,
    soundPath: string,
    volume: int,
    pushSound: string
  )

  /** No two rules share a user id. */
  predicate Distinct(rules: seq<Rule>) {
    forall i, j :: 0 <= i < |rules| && 0 <= j < |rules| && i != j ==> rules[i].userId != rules[j].userId
  }

  /** Some rule has the given user id. */
  predicate HasId(rules: seq<Rule>, id: string) {
    exists i :: 0 <= i < |rules| && rules[i].userId == id
  }

  /** The position of the first rule whose user id equals `id` exactly. */
  function IndexOf(rules: seq<Rule>, id: string): (k: Option<nat>)
    ensures k.Some? ==> k.value < |rules| && rules[k.value].userId == id
    ensures k.Some? ==> forall j :: 0 <= j < k.value ==> rules[j].userId != id
    ensures k.None? <==> !HasId(rules, id)
  {
    if |rules| == 0 then None
    else if rules[0].userId == id then Some(0)
    else
      match IndexOf(rules[1..], id)
      case None =>
        assert forall i :: 1 <= i < |rules| ==> rules[i] == rules[1..][i - 1];
        None
      case Some(j) => Some(j + 1)
  }

  /** `_find_rule`: the first rule whose user id equals `id`, if any. */
  function Find(rules: seq<Rule>, id: string): (r: Option<Rule>)
    ensures r.Some? ==> r.value in rules && r.value.userId == id
    ensures r.None? <==> !HasId(rules, id)
    ensures Distinct(rules) ==> forall i :: 0 <= i < |rules| && rules[i].userId == id ==> r == Some(rules[i])
  {
    match IndexOf(rules, id)
    case None => None
    case Some(k) => Some(rules[k])
  }

  /** `max(0, min(100, v))`. */
  function ClampVolume(v: int): (r: int)
    ensures 0 <= r <= 100
    ensures 0 <= v <= 100 ==> r == v
    ensures v < 0 ==> r == 0
    ensures v > 100 ==> r == 100
  {
    if v < 0 then 0 else if v > 100 then 100 else v
  }

  /** `max(0, min(100, int(v or 100)))`: the form's slider value, where 0 reads as 100. */
  function FormVolume(v: int): (r: int)
    ensures 0 <= r <= 100
    ensures v == 0 ==> r == 100
    ensures v != 0 ==> r == ClampVolume(v)
  {
    ClampVolume(if v == 0 then 100 else v)
  }

  /** The entry fields of the rule form, as typed. */
  datatype RuleForm = RuleForm(
    name: string,
    userId: string,
    soundPath: string,
    pushSound: string,
    volume: int
  )

  /** The rule the form describes: every text field stripped, the volume normalised. */
  function FormRule(f: RuleForm): Rule {
    Rule(Trim(f.name), Trim(f.userId), Trim(f.soundPath), FormVolume(f.volume), Trim(f.pushSound))
  }

  /** Why an add, update or remove left the table alone. */
  datatype RuleError =
    | NoSelection
    | MissingUserId
    | DuplicateUserId
    | InvalidSoundExtension
    | SelectionVanished

  /** The table after an action, and the reason when the action was refused. */
  datatype Edited = Edited(rules: seq<Rule>, error: Option<RuleError>)

  /** The selected row's user id, where an empty selection counts as none. */
  predicate Selected(selection: Option<string>) {
    selection.Some? && selection.value != []
  }

  /**
    `add_rule`: checks, in this order, that the UserID is not empty, that it is
    not already registered and that the sound ends in `.wav` or `.mp3`; on
    success the new rule goes to the end of the table.
   */
  function Add(rules: seq<Rule>, f: RuleForm): (r: Edited)
    ensures r.error.Some? ==> r.rules == rules
    ensures r.error == Some(MissingUserId) <==> Trim(f.userId) == []
    ensures r.error == Some(DuplicateUserId) <==> Trim(f.userId) != [] && HasId(rules, Trim(f.userId))
    ensures r.error == Some(InvalidSoundExtension) <==>
              Trim(f.userId) != [] && !HasId(rules, Trim(f.userId)) && !IsAllowedAudio(Trim(f.soundPath))
    ensures r.error.None? ==> |r.rules| == |rules| + 1 && r.rules[..|rules|] == rules
    ensures r.error.None? ==> r.rules[|rules|] == FormRule(f) && 0 <= r.rules[|rules|].volume <= 100
    ensures Distinct(rules) ==> Distinct(r.rules)
  {
    var rule := FormRule(f);
    if rule.userId == [] then Edited(rules, Some(MissingUserId))
    else if Find(rules, rule.userId).Some? then Edited(rules, Some(DuplicateUserId))
    else if !IsAllowedAudio(rule.soundPath) then Edited(rules, Some(InvalidSoundExtension))
    else
      var r := rules + [rule];
      assert r[..|rules|] == rules;
      Edited(r, None)
  }

  /** No rule of `rules` carries the user id `id`. */
  predicate Avoids(rules: seq<Rule>, id: string) {
    forall i :: 0 <= i < |rules| ==> rules[i].userId != id
  }

  lemma AvoidsIsNotHasId(rules: seq<Rule>, id: string)
    ensures Avoids(rules, id) <==> !HasId(rules, id)
  {
  }

  lemma DistinctCons(a: Rule, t: seq<Rule>)
    requires Distinct(t) && Avoids(t, a.userId)
    ensures Distinct([a] + t)
  {
    var r := [a] + t;
    forall i, j | 0 <= i < |r| && 0 <= j < |r| && i != j
      ensures r[i].userId != r[j].userId
    {
      if i > 0 && j > 0 {
        assert r[i] == t[i - 1] && r[j] == t[j - 1];
      } else if i == 0 {
        assert r[j] == t[j - 1];
      } else {
        assert r[i] == t[i - 1];
      }
    }
  }

  /** With distinct ids, the rules after the one carrying `id` avoid it. */
  lemma AvoidsAfter(rules: seq<Rule>, k: nat, id: string)
    requires Distinct(rules) && k < |rules| && rules[k].userId == id
    ensures Avoids(rules[k + 1..], id)
  {
    forall i | k + 1 <= i < |rules|
      ensures rules[i].userId != id
    {
    }
  }

  /** The rules whose user id differs from `id`, in their original order. */
  function DropId(rules: seq<Rule>, id: string): (r: seq<Rule>)
    ensures |r| <= |rules|
    ensures forall x :: x in r <==> x in rules && x.userId != id
  {
    if |rules| == 0 then []
    else if rules[0].userId == id then DropId(rules[1..], id)
    else [rules[0]] + DropId(rules[1..], id)
  }

  /** Dropping an id no rule carries changes nothing. */
  lemma {:induction false} DropAbsent(rules: seq<Rule>, id: string)
    requires Avoids(rules, id)
    ensures DropId(rules, id) == rules
  {
    if |rules| > 0 {
      DropAbsent(rules[1..], id);
      assert [rules[0]] + rules[1..] == rules;
    }
  }

  /** Dropping rules keeps the remaining user ids pairwise distinct. */
  lemma {:induction false} DropKeepsDistinct(rules: seq<Rule>, id: string)
    requires Distinct(rules)
    ensures Distinct(DropId(rules, id))
  {
    if |rules| > 0 {
      var tail := DropId(rules[1..], id);
      assert Distinct(rules[1..]);
      DropKeepsDistinct(rules[1..], id);
      if rules[0].userId != id {
        forall i | 0 <= i < |tail|
          ensures tail[i].userId != rules[0].userId
        {
          assert tail[i] in rules[1..];
          var j :| 0 <= j < |rules[1..]| && rules[1..][j] == tail[i];
          assert rules[j + 1] == tail[i];
        }
        DistinctCons(rules[0], tail);
      }
    }
  }

  /** No rule left by `DropId` carries the dropped id. */
  lemma DropAvoids(rules: seq<Rule>, id: string)
    ensures Avoids(DropId(rules, id), id)
  {
    var r := DropId(rules, id);
    assert forall i :: 0 <= i < |r| ==> r[i] in r;
  }

  /**
    `update_rule`: needs a selected row, a non-empty UserID and a `.wav`/`.mp3`
    sound, and refuses a UserID that belongs to a rule other than the selected
    one. The first rule with the selected id is rewritten in place; when its id
    changed, every other rule still carrying the old id is dropped.
   */
  function Update(rules: seq<Rule>, selection: Option<string>, f: RuleForm): (r: Edited)
    ensures r.error.Some? ==> r.rules == rules
    ensures r.error.None? <==>
              && Selected(selection)
              && Trim(f.userId) != []
              && IsAllowedAudio(Trim(f.soundPath))
              && (Trim(f.userId) == selection.value || !HasId(rules, Trim(f.userId)))
              && HasId(rules, selection.value)
    ensures r.error.None? ==>
              var k := IndexOf(rules, selection.value).value;
              && k < |r.rules| <= |rules|
              && r.rules[..k] == rules[..k]
              && r.rules[k] == FormRule(f)
              && Find(r.rules, FormRule(f).userId) == Some(FormRule(f))
    ensures Distinct(rules) && r.error.None? ==>
              r.rules == rules[IndexOf(rules, selection.value).value := FormRule(f)]
    ensures Distinct(rules) ==> Distinct(r.rules)
  {
    if !Selected(selection) then Edited(rules, Some(NoSelection))
    else
      var selected := selection.value;
      var rule := FormRule(f);
      if rule.userId == [] then Edited(rules, Some(MissingUserId))
      else if !IsAllowedAudio(rule.soundPath) then Edited(rules, Some(InvalidSoundExtension))
      else if rule.userId != selected && Find(rules, rule.userId).Some? then Edited(rules, Some(DuplicateUserId))
      else
        match IndexOf(rules, selected)
        case None => Edited(rules, Some(SelectionVanished))
        case Some(k) =>
          // The source filters by object identity: the rewritten rule stays,
          // and no rule before position k carries the old id, so only the
          // rules after k can be dropped.
          var result := if selected == rule.userId then rules[k := rule]
                        else rules[..k] + [rule] + DropId(rules[k + 1..], selected);
          AvoidsIsNotHasId(rules, rule.userId);
          UpdateShape(rules, k, rule, selected);
          UpdateFinds(rules, k, rule, selected);
          UpdateDistinct(rules, k, rule, selected);
          Edited(result, None)
  }

  /** The rewritten table of `update_rule` before any distinctness is assumed. */
  function Rewrite(rules: seq<Rule>, k: nat, rule: Rule, selected: string): seq<Rule>
    requires k < |rules|
  {
    if selected == rule.userId then rules[k := rule]
    else rules[..k] + [rule] + DropId(rules[k + 1..], selected)
  }

  lemma UpdateShape(rules: seq<Rule>, k: nat, rule: Rule, selected: string)
    requires k < |rules|
    ensures var r := Rewrite(rules, k, rule, selected);
            k < |r| <= |rules| && r[..k] == rules[..k] && r[k] == rule
  {
  }

  lemma UpdateFinds(rules: seq<Rule>, k: nat, rule: Rule, selected: string)
    requires k < |rules| && rules[k].userId == selected
    requires forall j :: 0 <= j < k ==> rules[j].userId != selected
    requires rule.userId == selected || Avoids(rules, rule.userId)
    ensures Find(Rewrite(rules, k, rule, selected), rule.userId) == Some(rule)
  {
    var r := Rewrite(rules, k, rule, selected);
    UpdateShape(rules, k, rule, selected);
    assert forall j :: 0 <= j < k ==> r[j] == rules[j];
    assert IndexOf(r, rule.userId) == Some(k);
  }

  lemma UpdateDistinct(rules: seq<Rule>, k: nat, rule: Rule, selected: string)
    requires k < |rules| && rules[k].userId == selected
    requires rule.userId == selected || Avoids(rules, rule.userId)
    ensures Distinct(rules) ==> Rewrite(rules, k, rule, selected) == rules[k := rule]
    ensures Distinct(rules) ==> Distinct(rules[k := rule])
  {
    if Distinct(rules) {
      if selected != rule.userId {
        assert Avoids(rules[k + 1..], selected) by {
          AvoidsAfter(rules, k, selected);
        }
        DropAbsent(rules[k + 1..], selected);
        assert rules[k := rule] == rules[..k] + [rule] + rules[k + 1..];
      }
      var r := rules[k := rule];
      forall i, j | 0 <= i < |r| && 0 <= j < |r| && i != j
        ensures r[i].userId != r[j].userId
      {
        if i != k && j != k {
          assert r[i] == rules[i] && r[j] == rules[j];
        } else if i == k {
          assert r[j] == rules[j];
        } else {
          assert r[i] == rules[i];
        }
      }
    }
  }

  /**
    `remove_rule`: needs a selected row, then drops every rule whose user id
    equals the selection and keeps the others in their order.
   */
  function Remove(rules: seq<Rule>, selection: Option<string>): (r: Edited)
    ensures r.error.Some? <==> !Selected(selection)
    ensures r.error.Some? ==> r.rules == rules
    ensures r.error.None? ==> forall x :: x in r.rules <==> x in rules && x.userId != selection.value
    ensures r.error.None? ==> !HasId(r.rules, selection.value)
    ensures r.error.None? && !HasId(rules, selection.value) ==> r.rules == rules
    ensures Distinct(rules) && r.error.None? && HasId(rules, selection.value) ==>
              var k := IndexOf(rules, selection.value).value;
              r.rules == rules[..k] + rules[k + 1..]
    ensures Distinct(rules) ==> Distinct(r.rules)
  {
    if !Selected(selection) then Edited(rules, Some(NoSelection))
    else
      var sel := selection.value;
      DropAvoids(rules, sel);
      AvoidsIsNotHasId(rules, sel);
      AvoidsIsNotHasId(DropId(rules, sel), sel);
      if Avoids(rules, sel) then
        DropAbsent(rules, sel);
        Edited(DropId(rules, sel), None)
      else
        if Distinct(rules) then
          DropKeepsDistinct(rules, sel);
          RemoveOne(rules, sel);
          Edited(DropId(rules, sel), None)
        else
          Edited(DropId(rules, sel), None)
  }

  /** With distinct ids, dropping an id that is present deletes exactly its one position. */
  lemma RemoveOne(rules: seq<Rule>, id: string)
    requires Distinct(rules) && HasId(rules, id)
    ensures DropId(rules, id) == rules[..IndexOf(rules, id).value] + rules[IndexOf(rules, id).value + 1..]
  {
    var k := IndexOf(rules, id).value;
    DropSplit(rules, k, id);
    assert Avoids(rules[..k], id);
    assert Avoids(rules[k + 1..], id) by {
      AvoidsAfter(rules, k, id);
    }
    DropAbsent(rules[..k], id);
    DropAbsent(rules[k + 1..], id);
  }

  /** Dropping an id distributes over a split of the table around a rule carrying it. */
  lemma {:induction false} DropSplit(rules: seq<Rule>, k: nat, id: string)
    requires k < |rules| && rules[k].userId == id
    ensures DropId(rules, id) == DropId(rules[..k], id) + DropId(rules[k + 1..], id)
    decreases k
  {
    if k > 0 {
      DropSplit(rules[1..], k - 1, id);
      assert rules[1..][..k - 1] == rules[..k][1..];
      assert rules[1..][k..] == rules[k + 1..];
    } else {
      assert rules[..k] == [];
      assert rules[1..] == rules[k + 1..];
    }
  }

  /** One action of the main window on the rule table. */
  datatype Action =
    | AddAction(form: RuleForm)
    | UpdateAction(selection: Option<string>, form: RuleForm)
    | RemoveAction(selection: Option<string>)

  function Apply(rules: seq<Rule>, a: Action): seq<Rule> {
    match a
    case AddAction(f) => Add(rules, f).rules
    case UpdateAction(sel, f) => Update(rules, sel, f).rules
    case RemoveAction(sel) => Remove(rules, sel).rules
  }

  function ApplyAll(rules: seq<Rule>, actions: seq<Action>): seq<Rule>
    decreases |actions|
  {
    if |actions| == 0 then rules else ApplyAll(Apply(rules, actions[0]), actions[1..])
  }

  /** Whatever sequence of adds, updates and removes is applied, user ids stay pairwise distinct. */
  lemma {:induction false} ActionsKeepIdsDistinct(rules: seq<Rule>, actions: seq<Action>)
    requires Distinct(rules)
    ensures Distinct(ApplyAll(rules, actions))
    decreases |actions|
  {
    if |actions| > 0 {
      ActionsKeepIdsDistinct(Apply(rules, actions[0]), actions[1..]);
    }
  }
}
