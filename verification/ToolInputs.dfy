/** What is shown of a structured tool input: a plan or a list of questions is shown item by item, and
    not at all when one item is unusable. */
module ToolInputs {
  import opened Text
  import opened SummaryModel

  // ----- Plans -----

  predicate UsableItem(item: PlanItem) {
    item.PlanItem? && SanitizeText(item.text) != "" && SanitizeText(item.status) != ""
  }

  predicate AllUsable(items: seq<PlanItem>) {
    forall i :: 0 <= i < |items| ==> UsableItem(items[i])
  }

  /** The item at `i` is the first one that is unusable. */
  predicate FirstUnusable(items: seq<PlanItem>, i: nat) {
    i < |items| && !UsableItem(items[i]) && AllUsable(items[..i])
  }

  function ItemReason(item: PlanItem, kind: Kind): Reason {
    if item.NotAnObject? then PlanItemUnsupported(kind) else PlanItemIncomplete(kind)
  }

  function ItemsShown(items: seq<PlanItem>): seq<TaskItem>
    requires AllUsable(items)
  {
    seq(|items|, i requires 0 <= i < |items| => TaskItem(SanitizeText(items[i].text), SanitizeText(items[i].status)))
  }

  /** There is a first unusable item if not all are usable. */
  lemma {:induction false} SomeFirst(items: seq<PlanItem>) returns (i: nat)
    requires !AllUsable(items)
    ensures FirstUnusable(items, i)
  {
    hide UsableItem;
    if !UsableItem(items[0]) {
      i := 0;
    } else {
      assert items == [items[0]] + items[1..];
      var rest := SomeFirst(items[1..]);
      i := rest + 1;
      assert items[..i] == [items[0]] + items[1..][..rest];
    }
  }

  /** A plan of at most 32 usable items is shown item by item; any other is refused for its shape, its
      length or its first unusable item. */
  ghost function ShownPlan(plan: Plan, kind: Kind): Collection<TaskItem> {
    if plan.NotAList? then Collection([], Unknown, None, Some(PlanUnsupported(kind)))
    else if |plan.items| > 32 then Collection([], Unknown, None, Some(PlanTooLong(kind)))
    else if AllUsable(plan.items) then Collection(ItemsShown(plan.items), Exact, Some(kind), None)
    else
      assert exists i: nat :: FirstUnusable(plan.items, i) by { var i := SomeFirst(plan.items); }
      var i: nat :| FirstUnusable(plan.items, i);
      Collection([], Unknown, None, Some(ItemReason(plan.items[i], kind)))
  }

  lemma {:induction false} UsableItemsShown(items: seq<PlanItem>, kind: Kind)
    requires AllUsable(items)
    ensures PlanTasks(items, kind) == Collection(ItemsShown(items), Exact, Some(kind), None)
  {
    hide SanitizeText;
    if items == [] {
    } else {
      UsableItemsShown(items[1..], kind);
      assert UsableItem(items[0]);
      assert ItemsShown(items) == ItemsShown(items[..1]) + ItemsShown(items[1..]);
    }
  }

  lemma {:induction false} UnusableItemRefused(items: seq<PlanItem>, i: nat, kind: Kind)
    requires FirstUnusable(items, i)
    ensures PlanTasks(items, kind) == Collection([], Unknown, None, Some(ItemReason(items[i], kind)))
  {
    hide SanitizeText;
    if i > 0 {
      assert UsableItem(items[..i][0]);
      assert items[1..][..i - 1] == items[..i][1..];
      UnusableItemRefused(items[1..], i - 1, kind);
    }
  }

  lemma PlanShownExactly(plan: Plan, kind: Kind)
    ensures TaskCollection(plan, kind) == ShownPlan(plan, kind)
  {
    hide SanitizeText, PlanTasks;
    if plan.Plan? && |plan.items| <= 32 {
      if AllUsable(plan.items) {
        UsableItemsShown(plan.items, kind);
      } else {
        var i := SomeFirst(plan.items);
        forall i: nat | FirstUnusable(plan.items, i)
          ensures PlanTasks(plan.items, kind) == Collection([], Unknown, None, Some(ItemReason(plan.items[i], kind)))
        {
          UnusableItemRefused(plan.items, i, kind);
        }
      }
    }
  }

  // ----- Questions -----

  predicate UsableQuestion(item: QuestionItem) {
    item.QuestionItem? && SanitizeText(item.text) != ""
  }

  predicate AllUsableQuestions(items: seq<QuestionItem>) {
    forall i :: 0 <= i < |items| ==> UsableQuestion(items[i])
  }

  function ItemClaims(items: seq<QuestionItem>, kind: Kind, id: string): seq<Claim>
    requires AllUsableQuestions(items)
  {
    seq(|items|, i requires 0 <= i < |items| =>
      Claim(Some(SanitizeText(items[i].text)), Exact, Some(kind), Some(id), None))
  }

  /** The claims a call's questions make: one per question, or none if one is unusable or there are
      more than 32. */
  function Asked(questions: Questions, kind: Kind, id: string): Option<seq<Claim>> {
    if questions.Questions? && |questions.items| <= 32 && AllUsableQuestions(questions.items) then
      Some(ItemClaims(questions.items, kind, id))
    else None
  }

  lemma {:induction false} ItemsAsked(items: seq<QuestionItem>, kind: Kind, id: string)
    ensures ClaimsOf(items, kind, id) ==
            if AllUsableQuestions(items) then Some(ItemClaims(items, kind, id)) else None
  {
    hide SanitizeText;
    if items == [] {
    } else {
      ItemsAsked(items[1..], kind, id);
      assert AllUsableQuestions(items) <==> UsableQuestion(items[0]) && AllUsableQuestions(items[1..]) by {
        assert items == [items[0]] + items[1..];
      }
      if AllUsableQuestions(items) {
        var rest := ItemClaims(items[1..], kind, id);
        assert ItemClaims(items, kind, id) == [ExactClaim(items[0].text, kind, Some(id))] + rest;
      }
    }
  }

  lemma QuestionsAskedExactly(questions: Questions, kind: Kind, id: string)
    ensures QuestionClaims(questions, kind, id) == Asked(questions, kind, id)
  {
    hide SanitizeText, ClaimsOf;
    if questions.Questions? { ItemsAsked(questions.items, kind, id); }
  }
}
