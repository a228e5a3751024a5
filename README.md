# Assign-card wizard: step resolution and store synchronisation

This project models the state machine inside the workspace company-card "assign card"
page (`AssignCardFeedPage`). The page walks a user through seven steps: Assignee,
BankConnection, PlaidConnection, Card, TransactionStartDate, CardName and Confirmation.
It keeps the current step in two places: the route's `step` parameter and the persisted
`ASSIGN_CARD` record. It resolves one current step from them on each render. Other
behaviour covered:

- the navigation helpers write both stores;
- back navigation walks the fixed step order, or dismisses the screen;
- a `beforeRemove` listener turns the host's back gesture into a step back;
- a synchronisation effect reconciles the two stores;
- an unmount cleanup clears the persisted record;
- a `switch` picks the step component to render.

Two modules:

- `AssignCardFlow` (assign_card_flow.dfy) holds the pure part. It defines the step
  identifiers and `StepOrder`, `Array.prototype.indexOf`, the resolution expression,
  the retreat decision, the synchronisation decision and its effect on the stores, the
  `backTo` flag and the step-to-view dispatch.
- `AssignCardPage` (assign_card_page.dfy) holds the imperative part. The class
  `AssignCardFeedPage` has the two stores as fields. Its methods are the page's
  callbacks and effects. Each method's postcondition ties the new stores to the pure
  functions. The host's `goBack` is a counter, and `preventDefault` sets a flag on a
  `BeforeRemoveEvent` object.

JavaScript truthiness is modelled explicitly. An optional string is "truthy" when it is
present and non-empty (`Truthy`). The resolution, the synchronisation tests and the
`backTo` flag all use `||`, `&&` and `!` on such values. So an empty route `step`
counts as absent, just as in the code.

Three behaviours of the code are worth knowing, and the model keeps them:

- The `currentStep` expression (line 45) does not check membership in the step order,
  so an unknown route `step` becomes the current step. `ResolveStep` keeps it. For such
  a step, `StepView` renders the Assignee view, `RetreatFrom` dismisses the screen
  (`indexOf` gives -1), and `OnBeforeRemove` still cancels the dismissal before
  retreating.
- The delegate gate (line 109) returns early only from rendering, and every hook is
  declared above it. So the sync effect, the `beforeRemove` listener and the unmount
  cleanup still run for a delegate. In the model, only `Render` looks at
  `isActingAsDelegate`. `DelegatePageStillSyncs` shows a delegate page writing the
  route's step into the persisted record.
- The resolution uses `||`, so an empty string falls through to the next source.

## Model

| member | source | states |
|---|---|---|
| AssignCardFlow.IndexOf | src/pages/workspace/companyCards/assignCard/AssignCardFeedPage.tsx:61 | the result is -1 exactly when the step is not in the sequence; otherwise it is the first position holding the step |
| AssignCardFlow.ResolveStep | src/pages/workspace/companyCards/assignCard/AssignCardFeedPage.tsx:45 | precedence: a truthy route step wins, then a truthy persisted step, then Assignee; the result is never empty and is not checked against the step order |
| AssignCardFlow.SaveStep | src/pages/workspace/companyCards/assignCard/AssignCardFeedPage.tsx:57 | the persisted record gets the step and `isEditing` false, and keeps its assignee email |
| AssignCardFlow.NavigateTo | src/pages/workspace/companyCards/assignCard/AssignCardFeedPage.tsx:52-58 | both stores hold the new step, editing is off, the stores agree, and the resolved step is the new step (Assignee if the step is empty) |
| AssignCardFlow.RetreatFrom | src/pages/workspace/companyCards/assignCard/AssignCardFeedPage.tsx:60-69 | a step back is taken exactly when the current step is in the order and is not Assignee, and it lands one position earlier; otherwise the screen is dismissed |
| AssignCardFlow.RetreatWalksStepOrder | src/pages/workspace/companyCards/assignCard/AssignCardFeedPage.tsx:60-69 | from position i, n back presses with n <= i show the step at position i-n, and one more press than i dismisses the screen |
| AssignCardFlow.SyncPlan | src/pages/workspace/companyCards/assignCard/AssignCardFeedPage.tsx:94-100 | no write exactly when the stores already agree; otherwise a truthy route step is copied into the record, or, with no truthy route step, the truthy persisted step is copied into the route |
| AssignCardFlow.ApplySync | src/pages/workspace/companyCards/assignCard/AssignCardFeedPage.tsx:94-100 | after one run the stores agree and a second run writes nothing; a truthy route step is kept and the record takes it, otherwise the record is kept and the route takes its step; the resolved step and the assignee email are unchanged; an agreeing state is left as it is |
| AssignCardFlow.ShouldUseBackToParam | src/pages/workspace/companyCards/assignCard/AssignCardFeedPage.tsx:48-49 | `backTo` is dropped exactly when the first assignee email was non-empty and the current one differs from it |
| AssignCardFlow.SaveEmail | src/pages/workspace/companyCards/assignCard/AssignCardFeedPage.tsx:48-49 | the step components' write of the assignee email (the value the `backTo` comparison reads) sets the email and keeps the step and the editing flag |
| AssignCardFlow.StepView | src/pages/workspace/companyCards/assignCard/AssignCardFeedPage.tsx:128-192 | each known step renders its own view; any other value renders the Assignee view; TransactionStartDate always gets `backTo`; Confirmation gets it only when the flag allows |
| AssignCardPage.AssignCardFeedPage.Render | src/pages/workspace/companyCards/assignCard/AssignCardFeedPage.tsx:109-192 | the access-denied view is rendered exactly when acting as a delegate; otherwise the view of the resolved step (Assignee for unknown steps); TransactionStartDate always receives `backTo`; Confirmation receives it exactly when the first assignee email was empty or equals the current one, and `None` otherwise |
| AssignCardPage.AssignCardFeedPage.constructor | src/pages/workspace/companyCards/assignCard/AssignCardFeedPage.tsx:37-48 | the page starts from the route and persisted record as found, and captures the assignee email of the first render |
| AssignCardPage.AssignCardFeedPage.NavigateToStep | src/pages/workspace/companyCards/assignCard/AssignCardFeedPage.tsx:52-58 | both stores take the step with editing off; the stores agree and the resolved step becomes the step; no `goBack` |
| AssignCardPage.AssignCardFeedPage.NavigateToNextStep | src/pages/workspace/companyCards/assignCard/AssignCardFeedPage.tsx:71-73 | moves to the successor the step component chose, as `NavigateToStep` does |
| AssignCardPage.AssignCardFeedPage.NavigateToPreviousStep | src/pages/workspace/companyCards/assignCard/AssignCardFeedPage.tsx:60-69 | moves to the previous step of the order, or, at Assignee or at an unknown step, calls `goBack` once and writes neither store |
| AssignCardPage.AssignCardFeedPage.Close | src/pages/workspace/companyCards/assignCard/AssignCardFeedPage.tsx:125 | calls `goBack` once and writes neither store |
| AssignCardPage.AssignCardFeedPage.OnBeforeRemove | src/pages/workspace/companyCards/assignCard/AssignCardFeedPage.tsx:76-91 | at Assignee nothing happens and the dismissal proceeds; at any other step the default is prevented and the page retreats |
| AssignCardPage.AssignCardFeedPage.SyncEffect | src/pages/workspace/companyCards/assignCard/AssignCardFeedPage.tsx:94-100 | performs the planned write; afterwards the stores agree, the resolved step and the `backTo` flag are unchanged, and nothing changed exactly when no write was planned |
| AssignCardPage.AssignCardFeedPage.Unmount | src/pages/workspace/companyCards/assignCard/AssignCardFeedPage.tsx:103-107 | the persisted record is cleared whatever step was active; the route step is kept |
| AssignCardPage.AssignCardFeedPage.SetAssigneeEmail | src/pages/workspace/companyCards/assignCard/AssignCardFeedPage.tsx:48-49 | a new assignee email is merged into the persisted record; the route step and the resolved step are unchanged |
| AssignCardPage.DelegatePageStillSyncs | src/pages/workspace/companyCards/assignCard/AssignCardFeedPage.tsx:94-119 | a delegate page renders only the access-denied view, yet its synchronisation effect still copies the route step into the persisted record |
| AssignCardPage.ConfirmationAfterAssigneeChange | src/pages/workspace/companyCards/assignCard/AssignCardFeedPage.tsx:48-49 | starting from a non-empty assignee email, Confirmation receives `backTo` when the email written later is the same, and `None` when it differs |

## Left out

- JSX rendering and the step components (`AssigneeStep`, `BankConnection`, `PlaidConnectionStep`, `CardSelectionStep`, `TransactionStartDateStep`, `CardNameStep`, `ConfirmationStep`, `ScreenWrapper`, `DelegateNoAccessWrapper`): their sources are not part of this model. Dispatch is a function from step to a view tag. Only the `backTo` prop is carried, because it is the only prop that depends on the modelled state; `feed` and `policyID` are pass-through values.
- The literal step strings come from `CONST.ts`, which is not part of this model. The strings used here are assumed values. The proofs depend only on the seven being distinct and non-empty.
- `setAssignCardStepAndData` and `clearAssignCardStepAndData` (in `CompanyCards` actions) are not part of this model. The first is modelled as a merge into the persisted record: the page's own call keeps the data (`SaveStep`), and a step component's write of the assignee email keeps the step (`SaveEmail`). The second is modelled as removing the record.
- The step components' other writes to the persisted record are not modelled; only the assignee email write (`SetAssigneeEmail`) is, because the `backTo` comparison reads it.
- The persisted record is reduced to `currentStep`, `isEditing` and the assignee email. Its other data fields are never read or written by the page.
- React hook scheduling: `useEffect` timing, dependency arrays, `useCallback` memoisation and `useInitial`. Each effect and callback is a method called explicitly. The listener reads the step of the latest render, because the effect re-registers it whenever `currentStep` changes. The first assignee email is captured by the constructor.
- Listener registration and unsubscription through `addListener`: host navigation API. `goBack` re-firing `beforeRemove` is host re-entrance and is not modelled.
- `decodeURIComponent` of `feed`, the `policy` and `policyID` props and the `withPolicyAndFullscreenLoading` wrapper: pass-through data and library calls with no logic on this page.
- How `isActingAsDelegate` is derived from the account record: it is an input boolean, fixed for the page's lifetime.
