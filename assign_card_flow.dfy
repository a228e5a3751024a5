/** The pure half of the company-card "assign card" wizard: the step identifiers and
    their fixed order, how the current step is resolved from the route parameter and
    the persisted record, what one back press does, how the synchronisation effect
    reconciles the two stores, and which view a step renders. */
module AssignCardFlow {

  datatype Option<+T> = None | Some(value: T)

  // The seven step identifiers of the wizard.
  const Assignee: string := "Assignee"
  const BankConnection: string := "BankConnection"
  const PlaidConnection: string := "PlaidConnection"
  const Card: string := "Card"
  const TransactionStartDate: string := "TransactionStartDate"
  const CardName: string := "CardName"
  const Confirmation: string := "Confirmation"

  /** The order in which back navigation walks the wizard. */
  const StepOrder: seq<string> :=
    [Assignee, BankConnection, PlaidConnection, Card, TransactionStartDate, CardName, Confirmation]

  /** The persisted ASSIGN_CARD record, reduced to what the page reads or writes:
      the current step, the editing flag and the assignee email held in its data. */
  datatype AssignCard = AssignCard(currentStep: Option<string>, isEditing: bool, email: Option<string>)

  /** The two stores the page keeps in step: the route's `step` parameter and the
      persisted record (absent before the first write and after cleanup). */
  datatype Stores = Stores(urlStep: Option<string>, assignCard: Option<AssignCard>)

  /** What one back press decides: go to an earlier step, or dismiss the screen. */
  datatype Retreat = PreviousStep(step: string) | GoBack

  /** The one write the synchronisation effect may perform. */
  datatype SyncWrite = WritePersisted(step: string) | WriteUrl(step: string) | NoWrite

  /** The step component the page renders; two of them receive a `backTo` route. */
  datatype View =
    | AssigneeView
    | BankConnectionView
    | PlaidConnectionView
    | CardSelectionView
    | TransactionStartDateView(backTo: Option<string>)
    | CardNameView
    | ConfirmationView(backTo: Option<string>)
    | DelegateNoAccessView

  /** JavaScript truthiness of an optional string: present and not empty. */
  predicate Truthy(o: Option<string>) {
    o.Some? && o.value != ""
  }

  /** The step a store holds, as the page's `||` and `&&` tests see it. */
  function StepValue(o: Option<string>): (r: Option<string>)
    ensures r.Some? <==> Truthy(o)
    ensures r.Some? ==> r == o
  {
    if Truthy(o) then o else None
  }

  /** `assignCard?.currentStep`. */
  function PersistedStep(card: Option<AssignCard>): Option<string> {
    if card.Some? then card.value.currentStep else None
  }

  /** `assignCard?.data?.email`. */
  function PersistedEmail(card: Option<AssignCard>): Option<string> {
    if card.Some? then card.value.email else None
  }

  /** Step order has no repeated identifier. */
  predicate Distinct(s: seq<string>) {
    forall j, k :: 0 <= j < k < |s| ==> s[j] != s[k]
  }

  /** `Array.prototype.indexOf`: the first position of `x` in `s`, or -1. */
  function IndexOf(s: seq<string>, x: string): (r: int)
    ensures -1 <= r < |s|
    ensures r == -1 <==> x !in s
    ensures 0 <= r ==> s[r] == x && x !in s[..r]
  {
    if s == [] then -1
    else if s[0] == x then 0
    else
      var k := IndexOf(s[1..], x);
      if k == -1 then -1
      else
        assert s[..k + 1] == [s[0]] + s[1..][..k];
        k + 1
  }

  /** The step order has seven different identifiers. */
  lemma StepOrderDistinct()
    ensures |StepOrder| == 7 && Distinct(StepOrder)
  {
  }

  /** Every step of the order is found at its own position. */
  lemma IndexOfStepOrder(i: nat)
    requires i < |StepOrder|
    ensures IndexOf(StepOrder, StepOrder[i]) == i
  {
    StepOrderDistinct();
  }

  /** The page's `currentStep` expression: the URL step if truthy, else the persisted
      step if truthy, else Assignee. Membership in StepOrder is not checked. */
  function ResolveStep(urlStep: Option<string>, persistedStep: Option<string>): (r: string)
    ensures r != ""
    ensures Truthy(urlStep) ==> r == urlStep.value
    ensures !Truthy(urlStep) && Truthy(persistedStep) ==> r == persistedStep.value
    ensures !Truthy(urlStep) && !Truthy(persistedStep) ==> r == Assignee
  {
    if Truthy(urlStep) then urlStep.value
    else if Truthy(persistedStep) then persistedStep.value
    else Assignee
  }

  /** The step the page renders for the given stores. */
  function CurrentStep(s: Stores): string {
    ResolveStep(s.urlStep, PersistedStep(s.assignCard))
  }

  /** The two stores agree on the step, as truthiness sees them. */
  predicate StoresAgree(s: Stores) {
    StepValue(s.urlStep) == StepValue(PersistedStep(s.assignCard))
  }

  /** `setAssignCardStepAndData({currentStep: step, isEditing: false})`: a merge into the
      persisted record that keeps the data already there. */
  function SaveStep(card: Option<AssignCard>, step: string): (r: AssignCard)
    ensures r.currentStep == Some(step) && !r.isEditing
    ensures r.email == PersistedEmail(card)
  {
    AssignCard(Some(step), false, PersistedEmail(card))
  }

  /** A step component's `setAssignCardStepAndData({data: {email}})`: a merge that sets
      the assignee email and keeps the step and the editing flag. */
  function SaveEmail(card: Option<AssignCard>, email: string): (r: AssignCard)
    ensures r.email == Some(email)
    ensures r.currentStep == PersistedStep(card)
    ensures card.Some? ==> r.isEditing == card.value.isEditing
  {
    if card.Some? then card.value.(email := Some(email)) else AssignCard(None, false, Some(email))
  }

  /** `navigateToStep(step)`: the route parameter and the persisted record both take
      `step`, and editing mode is switched off. */
  function NavigateTo(s: Stores, step: string): (r: Stores)
    ensures r.urlStep == Some(step) && PersistedStep(r.assignCard) == Some(step)
    ensures r.assignCard.Some? && !r.assignCard.value.isEditing
    ensures PersistedEmail(r.assignCard) == PersistedEmail(s.assignCard)
    ensures StoresAgree(r)
    ensures step != "" ==> CurrentStep(r) == step
    ensures step == "" ==> CurrentStep(r) == Assignee
  {
    Stores(Some(step), Some(SaveStep(s.assignCard, step)))
  }

  /** `navigateToPreviousStep` for the given current step: the step just before it in
      StepOrder, or a dismissal when it is the first step or not in StepOrder at all. */
  function RetreatFrom(current: string): (r: Retreat)
    ensures r.PreviousStep? <==> current in StepOrder && current != Assignee
    ensures r.PreviousStep? ==> r.step in StepOrder && IndexOf(StepOrder, r.step) + 1 == IndexOf(StepOrder, current)
  {
    var i := IndexOf(StepOrder, current);
    if i > 0 then
      IndexOfStepOrder(i - 1);
      PreviousStep(StepOrder[i - 1])
    else
      assert i == 0 ==> current == Assignee;
      GoBack
  }

  /** The step shown after `n` back presses from `current`; None once the screen was
      dismissed. */
  function Retreats(current: string, n: nat): Option<string>
    decreases n
  {
    if n == 0 then Some(current)
    else match RetreatFrom(current)
      case GoBack => None
      case PreviousStep(p) => Retreats(p, n - 1)
  }

  /** Back presses walk StepOrder backwards one position each, and the press after
      reaching Assignee dismisses the screen. */
  lemma {:induction false} RetreatWalksStepOrder(i: nat, n: nat)
    requires i < |StepOrder|
    ensures n <= i ==> Retreats(StepOrder[i], n) == Some(StepOrder[i - n])
    ensures n > i ==> Retreats(StepOrder[i], n) == None
  {
    if n > 0 {
      IndexOfStepOrder(i);
      if i == 0 {
        assert RetreatFrom(StepOrder[0]) == GoBack;
      } else {
        IndexOfStepOrder(i - 1);
        assert RetreatFrom(StepOrder[i]) == PreviousStep(StepOrder[i - 1]);
        RetreatWalksStepOrder(i - 1, n - 1);
      }
    }
  }

  /** The decision of the URL/persisted sync `useEffect`. */
  function SyncPlan(s: Stores): (w: SyncWrite)
    ensures w.NoWrite? <==> StoresAgree(s)
    ensures w.WritePersisted? ==> Truthy(s.urlStep) && w.step == s.urlStep.value
    ensures w.WriteUrl? ==> !Truthy(s.urlStep) && Truthy(PersistedStep(s.assignCard))
                            && Some(w.step) == PersistedStep(s.assignCard)
  {
    var persisted := PersistedStep(s.assignCard);
    if Truthy(s.urlStep) && Some(s.urlStep.value) != persisted then WritePersisted(s.urlStep.value)
    else if !Truthy(s.urlStep) && Truthy(persisted) then WriteUrl(persisted.value)
    else NoWrite
  }

  /** The stores after one run of the synchronisation effect: they agree, the resolved
      step is unchanged, and a state where they already agree is left as it is. */
  function ApplySync(s: Stores): (r: Stores)
    ensures StoresAgree(r)
    ensures SyncPlan(r) == NoWrite
    ensures CurrentStep(r) == CurrentStep(s)
    ensures StoresAgree(s) ==> r == s
    ensures r.urlStep == s.urlStep || PersistedStep(r.assignCard) == PersistedStep(s.assignCard)
    ensures Truthy(s.urlStep) ==> r.urlStep == s.urlStep
    ensures !Truthy(s.urlStep) ==> r.assignCard == s.assignCard
    ensures PersistedEmail(r.assignCard) == PersistedEmail(s.assignCard)
  {
    match SyncPlan(s)
    case WritePersisted(u) => s.(assignCard := Some(SaveStep(s.assignCard, u)))
    case WriteUrl(p) => s.(urlStep := Some(p))
    case NoWrite => s
  }

  /** `shouldUseBackToParam`: `backTo` stays valid unless an initially non-empty assignee email has
      since been replaced. */
  function ShouldUseBackToParam(firstEmail: Option<string>, currentEmail: Option<string>): (r: bool)
    ensures firstEmail == currentEmail ==> r
    ensures !Truthy(firstEmail) ==> r
    ensures !r <==> Truthy(firstEmail) && currentEmail != firstEmail
  {
    !Truthy(firstEmail) || firstEmail == currentEmail
  }

  /** The step a rendered view belongs to; DelegateNoAccessView belongs to none. */
  function ViewStep(v: View): Option<string> {
    match v
    case AssigneeView => Some(Assignee)
    case BankConnectionView => Some(BankConnection)
    case PlaidConnectionView => Some(PlaidConnection)
    case CardSelectionView => Some(Card)
    case TransactionStartDateView(_) => Some(TransactionStartDate)
    case CardNameView => Some(CardName)
    case ConfirmationView(_) => Some(Confirmation)
    case DelegateNoAccessView => None
  }

  /** The page's `switch (currentStep)`: each known step renders its own view, and any other
      value falls through to the Assignee view. */
  function StepView(step: string, backTo: Option<string>, useBackTo: bool): (v: View)
    ensures ViewStep(v) == Some(if step in StepOrder then step else Assignee)
    ensures v == AssigneeView <==> step == Assignee || step !in StepOrder
    ensures v.TransactionStartDateView? ==> v.backTo == backTo
    ensures v.ConfirmationView? ==> v.backTo == (if useBackTo then backTo else None)
  {
    if step == BankConnection then BankConnectionView
    else if step == PlaidConnection then PlaidConnectionView
    else if step == Assignee then AssigneeView
    else if step == Card then CardSelectionView
    else if step == TransactionStartDate then TransactionStartDateView(backTo)
    else if step == CardName then CardNameView
    else if step == Confirmation then ConfirmationView(if useBackTo then backTo else None)
    else AssigneeView
  }
}
