/** The imperative half of the assign-card page: the route's `step` parameter and the
    persisted record are fields that the navigation helpers, the back-button listener,
    the synchronisation effect and the unmount cleanup rewrite. Host navigation
    effects are counted (`goBackCalls`) or recorded on the event object. */
module AssignCardPage {
  import opened AssignCardFlow

  /** The `beforeRemove` event the navigation host passes to the listener. */
  class BeforeRemoveEvent {
    var defaultPrevented: bool

    constructor ()
      ensures !defaultPrevented
    {
      defaultPrevented := false;
    }

    method PreventDefault()
      modifies this
      ensures defaultPrevented
    {
      defaultPrevented := true;
    }
  }

  /** The outcome of one retreat from `before`: either both stores moved to the
      previous step, or the stores are untouched and `goBack` was called once. */
  ghost predicate Retreated(before: Stores, goBacksBefore: nat, after: Stores, goBacksAfter: nat) {
    match RetreatFrom(CurrentStep(before))
    case PreviousStep(p) => after == NavigateTo(before, p) && goBacksAfter == goBacksBefore
    case GoBack => after == before && goBacksAfter == goBacksBefore + 1
  }

  class AssignCardFeedPage {
    var urlStep: Option<string>          // route.params.step
    var assignCard: Option<AssignCard>   // the persisted ASSIGN_CARD record
    var goBackCalls: nat                 // calls of navigation.goBack()
    const backTo: Option<string>         // route.params.backTo
    const isActingAsDelegate: bool
    const firstAssigneeEmail: Option<string>  // the assignee email seen on the first render

    function Snapshot(): Stores
      reads this
    {
      Stores(urlStep, assignCard)
    }

    /** The `currentStep` expression, read on every render. */
    function Current(): string
      reads this
    {
      CurrentStep(Snapshot())
    }

    /** `shouldUseBackToParam`. */
    function UseBackTo(): bool
      reads this
    {
      ShouldUseBackToParam(firstAssigneeEmail, PersistedEmail(assignCard))
    }

    /** What the page renders: the access-denied view when acting as a delegate,
        otherwise the view of the resolved step. */
    function Render(): (v: View)
      reads this
      ensures v == DelegateNoAccessView <==> isActingAsDelegate
      ensures !isActingAsDelegate ==> ViewStep(v) == Some(if Current() in StepOrder then Current() else Assignee)
      ensures !isActingAsDelegate && Current() == TransactionStartDate ==> v == TransactionStartDateView(backTo)
      ensures !isActingAsDelegate && Current() == Confirmation ==>
                v == ConfirmationView(if !Truthy(firstAssigneeEmail) || PersistedEmail(assignCard) == firstAssigneeEmail
                                      then backTo else None)
    {
      if isActingAsDelegate then DelegateNoAccessView
      else StepView(Current(), backTo, UseBackTo())
    }

    /** The first render: the route and the persisted record as found, and the
        assignee email captured once. */
    constructor (urlStep: Option<string>, backTo: Option<string>, assignCard: Option<AssignCard>,
                 isActingAsDelegate: bool)
      ensures this.urlStep == urlStep && this.assignCard == assignCard
      ensures this.backTo == backTo && this.isActingAsDelegate == isActingAsDelegate
      ensures firstAssigneeEmail == PersistedEmail(assignCard)
      ensures goBackCalls == 0
    {
      this.urlStep := urlStep;
      this.assignCard := assignCard;
      this.backTo := backTo;
      this.isActingAsDelegate := isActingAsDelegate;
      this.firstAssigneeEmail := PersistedEmail(assignCard);
      goBackCalls := 0;
    }

    /** `navigateToStep`: both stores take `step`, editing is switched off. */
    method NavigateToStep(step: string)
      modifies this
      ensures Snapshot() == NavigateTo(old(Snapshot()), step)
      ensures step != "" ==> Current() == step
      ensures StoresAgree(Snapshot())
      ensures goBackCalls == old(goBackCalls)
    {
      urlStep := Some(step);
      assignCard := Some(SaveStep(assignCard, step));
    }

    /** `navigateToNextStep` (the `onNext` callback): the successor is chosen by the
        step component. */
    method NavigateToNextStep(nextStep: string)
      modifies this
      ensures Snapshot() == NavigateTo(old(Snapshot()), nextStep)
      ensures goBackCalls == old(goBackCalls)
    {
      NavigateToStep(nextStep);
    }

    /** `navigateToPreviousStep` (the `onBack` callback). */
    method NavigateToPreviousStep()
      modifies this
      ensures Retreated(old(Snapshot()), old(goBackCalls), Snapshot(), goBackCalls)
      ensures old(Current()) in StepOrder && old(Current()) != Assignee ==>
                IndexOf(StepOrder, Current()) + 1 == IndexOf(StepOrder, old(Current()))
      ensures old(Current()) == Assignee || old(Current()) !in StepOrder ==>
                Snapshot() == old(Snapshot()) && goBackCalls == old(goBackCalls) + 1
    {
      var currentIndex := IndexOf(StepOrder, Current());
      if currentIndex > 0 {
        var previousStep := StepOrder[currentIndex - 1];
        NavigateToStep(previousStep);
      } else {
        goBackCalls := goBackCalls + 1;
      }
    }

    /** The `onClose` callback. */
    method Close()
      modifies this
      ensures Snapshot() == old(Snapshot())
      ensures goBackCalls == old(goBackCalls) + 1
    {
      goBackCalls := goBackCalls + 1;
    }

    /** The `beforeRemove` listener, bound to the step of the latest render: at Assignee
        the dismissal goes ahead; at any other step, known or not, it is cancelled and
        the page retreats instead. */
    method OnBeforeRemove(e: BeforeRemoveEvent)
      modifies this, e
      ensures e.defaultPrevented <==> old(e.defaultPrevented) || old(Current()) != Assignee
      ensures old(Current()) == Assignee ==>
                Snapshot() == old(Snapshot()) && goBackCalls == old(goBackCalls)
      ensures old(Current()) != Assignee ==>
                Retreated(old(Snapshot()), old(goBackCalls), Snapshot(), goBackCalls)
    {
      if Current() == Assignee {
        return;
      }
      e.PreventDefault();
      NavigateToPreviousStep();
    }

    /** The URL/persisted sync `useEffect`, run after a render. It runs whether
        or not the page is acting as a delegate. */
    method SyncEffect() returns (w: SyncWrite)
      modifies this
      ensures w == SyncPlan(old(Snapshot()))
      ensures Snapshot() == ApplySync(old(Snapshot()))
      ensures StoresAgree(Snapshot()) && Current() == old(Current())
      ensures UseBackTo() == old(UseBackTo())
      ensures w == NoWrite <==> Snapshot() == old(Snapshot())
      ensures goBackCalls == old(goBackCalls)
    {
      var persisted := PersistedStep(assignCard);
      if Truthy(urlStep) && Some(urlStep.value) != persisted {
        w := WritePersisted(urlStep.value);
        assignCard := Some(SaveStep(assignCard, urlStep.value));
      } else if !Truthy(urlStep) && Truthy(persisted) {
        w := WriteUrl(persisted.value);
        urlStep := Some(persisted.value);
      } else {
        w := NoWrite;
      }
    }

    /** A step component writing the chosen assignee's email into the persisted record,
        the write the `shouldUseBackToParam` comparison watches for; the current step is
        unchanged. */
    method SetAssigneeEmail(email: string)
      modifies this
      ensures assignCard == Some(SaveEmail(old(assignCard), email))
      ensures PersistedEmail(assignCard) == Some(email)
      ensures urlStep == old(urlStep) && goBackCalls == old(goBackCalls)
      ensures Current() == old(Current())
    {
      assignCard := Some(SaveEmail(assignCard, email));
    }

    /** The unmount cleanup: the persisted record is cleared whatever the step was. */
    method Unmount()
      modifies this
      ensures assignCard == None
      ensures urlStep == old(urlStep) && goBackCalls == old(goBackCalls)
      ensures Current() == (if Truthy(urlStep) then urlStep.value else Assignee)
    {
      assignCard := None;
    }
  }

  /** The delegate gate only replaces what is rendered: a page opened as a delegate on a
      deep link still copies the route's step into the persisted record. */
  method DelegatePageStillSyncs(step: string) returns (view: View, persisted: Option<string>)
    requires step != ""
    ensures view == DelegateNoAccessView
    ensures persisted == Some(step)
  {
    var page := new AssignCardFeedPage(Some(step), None, None, true);
    var _ := page.SyncEffect();
    view := page.Render();
    persisted := PersistedStep(page.assignCard);
  }

  /** A page opened at Confirmation with a non-empty assignee email hands its `backTo`
      to the Confirmation step only while that email is unchanged: once a different
      assignee is written, `backTo` is suppressed. */
  method ConfirmationAfterAssigneeChange(first: string, next: string, backTo: Option<string>)
    returns (view: View)
    requires first != ""
    ensures view == ConfirmationView(if next == first then backTo else None)
  {
    var card := AssignCard(Some(Confirmation), false, Some(first));
    var page := new AssignCardFeedPage(Some(Confirmation), backTo, Some(card), false);
    page.SetAssigneeEmail(next);
    view := page.Render();
  }
}
