# Verified model of the Zitadel auth provider

Zitadel owns the accounts; milo holds a `User` per account. Several actors move both stores without a common
lock: the invariant sweeper, the abandoned-account collector, the controllers with their finalizers, webhooks
and operators. This project models those actors in Dafny and proves what every run of them keeps, together with
the smaller protocols around them: the recovery-mail budget, the client-assertion cache, the verification
writer, the pending-avatar hand-off, the PlatformAccess and ServiceAccount reconcilers, the shutdown group, the
recovery link and the suspicious-login check.

Code that changes things step by step is a class or a method with its loops, proved against a function of its
inputs and the old state; what the system promises is then proved about that function. Interleavings are state
machines over single remote calls or single critical sections: `Exec` runs any sequence of actions, an action
that is not enabled changes nothing, and theorems about `Exec` hold for every run. Replies of remote calls are
chosen by the environment; `Wrappers.Outcome` is what one call did: `Applied`, `Rejected`, or `Lost` (it took
effect although the caller was told it failed). A crash is a `Rejected` reply followed by no further call.

| module | repository part |
|---|---|
| `Stores`, `StoreClients` | the listing and its raw page count, the two stores' client calls |
| `Paging` | reading the listing page by page while rows disappear from it |
| `AbandonedGC`, `AbandonedGCSweep` | the collector: effects as functions of the listing, and the sweep itself |
| `UserSweep` | the invariant sweeper |
| `TwoStores` | sweeper, collector, User controller, webhook and operators interleaved |
| `StatusFields` | status fields, and merge patches as a difference to a copy |
| `StatusWriters` | `emailverified.Set` against avatar patches and other writers |
| `RecoveryBudget`, `RecoveryLink` | the mail budget; the link and the mail |
| `AssertionCache` | the cached client assertion |
| `PlatformAccess`, `ServiceAccount` | the two reconcilers that use their own status as memory |
| `PendingAvatars`, `SuspiciousLogin` | the webhooks' avatar hand-off and login check |
| `ShutdownGroup` | the process group of the controller command |
| `Text`, `Wrappers` | ASCII string helpers; `Option` and `Outcome` |

`dafny verify dfyconfig.toml` checks everything.

## Where the code differs from what is said about it

- The comment in `collect` says the next sweep retries the milo side. It does not: the account is off the
  listing by then (`AbandonedGC.OrphanIsNeverRetried`).
- "No resurrection" needs a condition. A pass that began when milo had no such User, and read its page before the
  Zitadel delete, recreates the User of a collected account (`TwoStores.StalePassResurrects`).
  `TwoStores.ResurrectsIff` says exactly when: nothing but such a pass, and a create webhook that comes late.
- The avatar's expiry is looked at when it is taken, so it can reach the User any time after it
  (`PendingAvatars.LandsAfterExpiry`); what holds is that it was taken in time (`AlwaysTakenInTime`).
- ZitadelReady=True can be untrue of the referenced user. `PlatformAccess.ReadyMeansAligned` says exactly when:
  after a patch lost under a True condition once the user was moved, after an edit of the reference to a user in
  another state, and after somebody else locked, moved or deleted the user. None of these need ever be repaired
  (`LostPatchStrands`, `EditedRefIgnored`, `DisplacedIsIgnored`).
- A ServiceAccount's status can be untrue of its machine user, exactly after a state call whose status update was
  not stored, or a contrary change in the console (`ServiceAccount.StatusAlwaysTells`, `LostUpdateStrands`).
- An avatar can reach its User other than once per delivery, exactly when the answer to a stored patch was lost
  (`PendingAvatars.AppliedOnce`, `LandingsCounted`).
- A ServiceAccount with somebody else's finalizer is reconciled again while it is being deleted, which creates
  its machine user anew (`ServiceAccount.DyingObjectRecreatesUser`, `ForeignFinalizerLeavesAccount`);
  `ServiceAccount.NoAccountLeftBehind` says that this is the only way to leave an account behind.
- The package comment of `emailverified` says a merge patch replaces status wholesale. A merge patch sends only
  the fields that differ from the copy it was built from (section 2 of RFC 7396), which is why the avatar patch
  and `Set` do not overwrite each other (`StatusFields.AvatarPatchMovesTwo`, `StatusWriters.NoLostUpdate`).
- The order of errors in the shutdown group is the order in which the group hears of them, which may differ
  from the order in which the processes returned.

## Model

| member | source | states |
|---|---|---|
| StoreClients.ZitadelDirectory.ListHumanUsers | pkg/zitadel/sdk_client.go:669-710 | a page's humans in order, and the raw row count that callers page on |
| StoreClients.ZitadelDirectory.DeleteUser | pkg/zitadel/sdk_client.go:714-730 | the account is off the list, the others keep their order; an account already gone is a success |
| StoreClients.MiloStore.Create | internal/userprovision/userprovision.go:35-43 | an object of that name already there is success and left alone |
| StoreClients.MiloStore.SetVerification | internal/emailverified/emailverified.go:19-59 | without interference: one field replaced, and only on a mismatch; after a success it is Verified exactly when asked for true and Unverified exactly when asked for false |
| AbandonedGCSweep.HasUsableCredential | internal/controller/abandoned_user_gc.go:82-89 | true exactly when one of the methods is a usable credential |
| AbandonedGCSweep.AbandonedUserGC.Collect | internal/controller/abandoned_user_gc.go:283-296 | Zitadel delete first; the milo delete is issued only after it succeeded; both stores and the call log after it |
| AbandonedGCSweep.AbandonedUserGC.Visit | internal/controller/abandoned_user_gc.go:173-238 | counters, stores and calls after one listed user, for every reply |
| AbandonedGCSweep.AbandonedUserGC.SweepPages | internal/controller/abandoned_user_gc.go:166-244 | the page loop terminates and equals the fold of visits over the pages it reads while it deletes from them |
| AbandonedGCSweep.AbandonedUserGC.SweepOnce | internal/controller/abandoned_user_gc.go:159-254 | stores, calls, counters and gauge after a sweep are those of the rows it scanned; the gauge moves only after a whole sweep |
| AbandonedGCSweep.SweepIsTrace | internal/controller/abandoned_user_gc.go:163-244 | running the loops step by step gives the effects of exactly the scanned rows, in order |
| AbandonedGC.PageShift | internal/controller/abandoned_user_gc.go:240-243 | deleting from a full page shifts the rows behind it left by exactly the number deleted |
| Paging.TailAfter | internal/controller/abandoned_user_gc.go:240-243 | when any rows have gone since a page was read, the next page starts in the rest of the tail, shifted left by exactly the number that went before it |
| AbandonedGC.ScannedOnceInOrder | internal/controller/abandoned_user_gc.go:163-243 | every human is scanned at most once and in order; a complete sweep misses at most as many humans as it removed |
| AbandonedGC.NothingRemovedScansAll | internal/controller/abandoned_user_gc.go:163-243 | a complete sweep that removes nothing scans every human exactly once |
| AbandonedGC.DryRun | internal/controller/abandoned_user_gc.go:225-248 | a dry run changes neither store and calls no delete; if complete it scans everybody and the gauge is the true count |
| AbandonedGC.TallyCounts | internal/controller/abandoned_user_gc.go:173-248 | every counter and the gauge, live or dry: how many scanned rows fall under each heading, spelled out on the rows and replies |
| AbandonedGC.DeletesJustified | internal/controller/abandoned_user_gc.go:190-230 | every delete is of an account listed unverified, dated strictly before the cutoff, with a link list read and empty; never in a dry run |
| AbandonedGC.NonePassedOver | internal/controller/abandoned_user_gc.go:190-237 | in a live sweep every scanned human that is unverified, of known age, older than the cutoff and without links has its Zitadel delete, and its milo delete if that succeeded |
| AbandonedGC.DeleteOrder | internal/controller/abandoned_user_gc.go:279-295 | a milo delete directly follows the successful Zitadel delete of the same account |
| AbandonedGC.MethodsDecideNothing | internal/controller/abandoned_user_gc.go:176-188 | other authentication-method replies give the same scan and the same listing |
| AbandonedGC.MethodsDecideNoEffect | internal/controller/abandoned_user_gc.go:176-188 | nor do they change any delete or the milo store |
| AbandonedGC.MiloUserFate | internal/controller/abandoned_user_gc.go:288-294 | User by User: gone or marked exactly when both deletes of a scanned row went through, else untouched |
| AbandonedGC.OrphanIsNeverRetried | internal/controller/abandoned_user_gc.go:290-293 | once the account is off the listing no sweep touches its User, contrary to the comment |
| AbandonedGC.SomethingReaped | internal/controller/abandoned_user_gc.go:166-243 | a sweep whose reads and Zitadel deletes work removes an account if one meets the conditions, spelled out on its row |
| AbandonedGC.SweepProgress | internal/controller/abandoned_user_gc.go:166-244 | such a sweep removes collectable accounts only, and at least one if there are any |
| AbandonedGC.SweepsConverge | internal/controller/abandoned_user_gc.go:133-157 | at least as many sweeps as there are collectable accounts leave exactly the others, in order, each sweep with replies of its own but for the links |
| UserSweep.UserSweeper.Visit | internal/controller/user_sweep.go:124-161 | the store and the writes after one listed user, for every reply |
| UserSweep.VisitEffect | internal/controller/user_sweep.go:124-161 | one visit: a write exactly if the User does not say what Zitadel says, the User it leaves, the stop exactly at a failed creation |
| UserSweep.UserSweeper.SweepOnce | internal/controller/user_sweep.go:100-170 | the store, the writes and the listing after a pass equal the specification's, while others delete accounts between its pages |
| UserSweep.SweepVisitsAll | internal/controller/user_sweep.go:117-167 | over an unchanged listing, paging on the raw count visits every human once, in order, whatever rows each page skipped |
| UserSweep.LossyPass | internal/controller/user_sweep.go:117-167 | a pass whose reads and creations go through, under which others delete accounts and verification writes fail: it visits humans of its first listing at most once and in order, misses at most as many as rows went, and leaves the User of every visited one as it should be, unless its own write failed |
| UserSweep.SweepKeepsUsers | internal/controller/user_sweep.go:134-150 | no pass removes a User or moves any field but the verification, whatever fails |
| UserSweep.OnePass | internal/controller/user_sweep.go:124-161 | after an error-free pass every listed human has a User: if it was there it says what Zitadel says and is otherwise as it was, else it is new, with the address and names of the account and no verification; others are untouched |
| UserSweep.QuietPass | internal/controller/user_sweep.go:128-135 | an error-free pass issues exactly one write for each listed human that is not in sync, in order; hence none exactly when all are |
| UserSweep.Convergence | internal/controller/user_sweep.go:100-170 | after two error-free passes every listed human has a User that is Verified exactly if Zitadel says so and Unverified exactly if not, and the third issues no write |
| TwoStores.RunKeeps | internal/controller/user_sweep.go:107-155 | the protocol's invariant holds in every interleaving |
| TwoStores.NoResurrection | internal/controller/user_sweep.go:103-155 | a pass never creates a User that milo held when the pass began; one it creates had its account at that time, or the page was read before the Zitadel delete |
| TwoStores.ResurrectsIff | internal/controller/user_sweep.go:103-155 | every run and every next action: the User of a deleted account is made again exactly by a late webhook, or by a pass that has the account on its page and began when milo had no such User; that page was read before the delete |
| TwoStores.FinalizerHoldsUntilAccountGone | internal/controller/user_controller.go:35-101 | a User with the finalizer leaves milo only after its account left Zitadel, through failures, lost replies and crashes |
| TwoStores.FinalizerGoesOn | internal/controller/user_controller.go:89-101 | one undisturbed reconcile of a live User without the finalizer puts it on and changes nothing else |
| TwoStores.GuardedDeletion | internal/controller/user_controller.go:35-101 | a reconcile, an administrator's delete and a second reconcile take User and account away; the delete alone takes neither |
| TwoStores.GuardedDeletionHappens | internal/controller/user_controller.go:35-101 | for every id, a run from the start in which a User that carries the finalizer leaves milo |
| TwoStores.GcDeletesJustified | internal/controller/abandoned_user_gc.go:190-296 | interleaved with everybody, the collector deletes only accounts its own listing justified, and a User only after the account is gone |
| TwoStores.CollectorCollects | internal/controller/abandoned_user_gc.go:190-295 | an account listed unverified, older than the cutoff and without links goes in one undisturbed visit, and its User goes or is marked |
| TwoStores.OneReconcileDrains | internal/controller/user_controller.go:48-101 | one undisturbed reconcile of a deleting User removes it and its account, whether or not the account was still there |
| TwoStores.SwappedOrderResurrects | internal/controller/abandoned_user_gc.go:281-284 | with the two deletes swapped a run exists in which the User comes back and stays |
| TwoStores.StalePassResurrects | internal/controller/user_sweep.go:103-150 | a run in which a pass recreates the User of an account the collector has deleted |
| StatusFields.PatchOnCopy | internal/httpactionsserver/avatar_sync.go:106-109 | a patch applied to the copy it was built from gives exactly what was meant |
| StatusFields.PatchKeepsRest | internal/httpactionsserver/avatar_sync.go:106-109 | a merge patch leaves every field it was not built to change as stored, however stale the copy, absent fields and removals included |
| StatusFields.AvatarPatchMovesTwo | internal/httpactionsserver/avatar_sync.go:102-111 | for every copy and every stored status the avatar patch moves only the avatar URL and the login provider |
| StatusFields.PatchShowsAvatar | internal/httpactionsserver/avatar_sync.go:106-109 | exactly when a merge patch leaves the User with both fields of the avatar |
| StatusWriters.Try | internal/emailverified/emailverified.go:42-57 | one try: a conflict writes nothing, else at most one version, its predecessor with the one field replaced; an error only if a call was refused |
| StatusWriters.SetVerification | internal/emailverified/emailverified.go:40-59 | beside what the others wrote the call added nothing or one version over its predecessor; a change is reported exactly when it succeeds and added one, a success without one found the value; it fails only if a try was refused or all four were disturbed |
| StatusWriters.NoLostUpdate | internal/emailverified/emailverified.go:40-59 | every interleaving: a Set writes its immediate predecessor with one field replaced, patches built from any earlier copy move the two avatar fields only, a Set without error vouches for a moment of the call |
| StatusWriters.FinishedCallsVouch | internal/emailverified/emailverified.go:19-59 | every run: a call that reports no error vouches for a version of its lifetime that says "Verified" if asked for true and "Unverified" if asked for false |
| StatusWriters.UndisturbedSet | internal/emailverified/emailverified.go:40-59 | in every run a new call that nothing interleaves with succeeds on a living User, and writes a version exactly if the field said something else |
| StatusWriters.ConflictIsRetried | internal/emailverified/emailverified.go:42-57 | a conflict is tried again; the call fails at the fourth |
| StatusWriters.WritesAtMostOnce | internal/emailverified/emailverified.go:41-57 | a call writes at most one version, failed calls included, and it is the one the call ends with |
| StatusWriters.OnlySetMovesVerification | internal/httpactionsserver/avatar_sync.go:102-111 | between Sets, patches and other writers leave the verification alone |
| RecoveryBudget.RecoveryService.TooSoon | internal/recoverymail/cooldown.go:38-72 | too soon exactly unless every mail of the pair is at least the cooldown old and fewer than the cap are less than one hour old; an unreadable list is reported |
| RecoveryBudget.TooSoonIffNoRoom | internal/recoverymail/cooldown.go:59-71 | the decision on the listed mails is that on all mails, spelled out mail by mail |
| RecoveryBudget.RecoveryService.Serve | internal/webhook/accountrecovery.go:157-225 | nothing minted for an unverified or over-budget user, nothing mailed unminted; exactly which reply for which cause, an Email that already exists counting as sent |
| RecoveryBudget.WindowBound | internal/recoverymail/cooldown.go:59-71 | with at most k requests in flight every half-open window of an enforced length holds at most limit + k - 1 mails |
| RecoveryBudget.HourlyCap | internal/apiserver/identity/passkeyregistrationlinks/rest.go:195-230 | at most maxPerHour + k - 1 mails in any hour and k in any cooldown, for either trigger |
| RecoveryBudget.SequentialSpacing | internal/recoverymail/cooldown.go:61-65 | one request at a time: any two mails are at least the cooldown apart |
| RecoveryBudget.DecideIff | internal/recoverymail/cooldown.go:59-71 | every run: a listed request is allowed exactly when the mails it saw leave room by then |
| RecoveryBudget.UndisturbedRequest | internal/webhook/accountrecovery.go:178-223 | after every run a new request that nothing interleaves with mails exactly when there is room, and leaves the rest as it was |
| RecoveryBudget.CooldownIsReached | internal/recoverymail/cooldown.go:61-65 | for every cooldown a run holds two mails exactly the cooldown apart, unless the cap is one within the hour |
| RecoveryBudget.HourlyCapIsReached | internal/webhook/accountrecovery.go:178-215 | the bound is tight for every cap and every k |
| RecoveryBudget.OthersNeverInterfere | internal/recoverymail/cooldown.go:32-53 | a pair's mails, clock and requests in any run are those of the run without anybody else's requests |
| AssertionCache.Introspector.GetCachedAssertion | pkg/token/introspector.go:223-239 | the cached token exactly while it is fresh |
| AssertionCache.Introspector.CreateAndCacheAssertion | pkg/token/introspector.go:243-272 | reuse if fresh, else sign and cache; a failed signing leaves the cache |
| AssertionCache.Introspector.CreateClientAssertion | pkg/token/introspector.go:211-219 | what is returned outlives the leeway or was just signed; a fresh cache is never signed over |
| AssertionCache.SigningRate | pkg/token/introspector.go:250-268 | any number of callers: signings i and j are at least (j - i)(expiration - refreshBefore) apart |
| AssertionCache.HandedLifetime | pkg/token/introspector.go:226-271 | a cached token has more than the leeway left at the caller's clock sample, a fresh one its whole lifetime |
| AssertionCache.ExpiryNeverMovesBack | pkg/token/introspector.go:266-268 | the cached expiry never moves back |
| AssertionCache.WaitersReuse | pkg/token/introspector.go:252-256 | every run: a caller that gets the lock less than expiration - refreshBefore after the last signing signs nothing and is handed that token |
| AssertionCache.ReadersReuse | pkg/token/introspector.go:226-234 | every run: a caller whose clock sample is less than expiration - refreshBefore after the last signing is served from the cache at once |
| AssertionCache.StaleIsRenewed | pkg/token/introspector.go:252-271 | every run: a caller that holds the lock later than that signs and is handed the new token |
| AssertionCache.CachedClaimInFuture | pkg/token/introspector.go:279-287 | the whole-second exp claim of a cached token is ahead of every use exactly when the leeway is a second less a nanosecond or more |
| AssertionCache.FreshClaimInFuture | pkg/token/introspector.go:279-287 | that of a fresh token exactly when the lifetime is a second or more |
| PlatformAccess.PlatformAccessController.EnsureZitadelUserState | internal/controller/platformaccess_controller.go:142-171 | which call from which state, waiting in any third state, for every reply, a missing user among them |
| PlatformAccess.PlatformAccessController.ReconcileOnce | internal/controller/platformaccess_controller.go:54-114 | Zitadel, condition and patches after one reconcile |
| PlatformAccess.StepKeepsIff | internal/controller/platformaccess_controller.go:54-114 | from a state in which ZitadelReady=True is true of the referenced user, one action keeps it so exactly when it is not, under a True condition, a move whose patch is lost, a reference edit to a user in another state, or somebody else's change or deletion of the user |
| PlatformAccess.ReadyMeansAligned | internal/controller/platformaccess_controller.go:70-199 | every run, locks and deletions in Zitadel included: at every boundary ZitadelReady=True with reason r means the user is Active exactly when r is not Suspended, if and only if no step is one of those breaks |
| PlatformAccess.AlwaysAligned | internal/controller/platformaccess_controller.go:70-199 | the same, as an equivalence, for the user the condition was set for: only a lost patch after moving that user, or somebody else's change of it, breaks it |
| PlatformAccess.MutatesFromOpposite | internal/controller/platformaccess_controller.go:148-170 | every run: reactivate is called only on inactive users, deactivate only on active ones |
| PlatformAccess.CallsMade | internal/controller/platformaccess_controller.go:142-171 | which call a reconcile makes, if any, on the state, the condition and the user as they were |
| PlatformAccess.ReasonGiven | internal/controller/platformaccess_controller.go:173-199 | which status and reason a reconcile that looks leaves, for every reply |
| PlatformAccess.TransitionTime | internal/controller/platformaccess_controller.go:173-199 | the transition time moves exactly with the status |
| PlatformAccess.RepeatIsQuiet | internal/controller/platformaccess_controller.go:73-98 | an error-free reconcile repeated makes no Zitadel call and no patch |
| PlatformAccess.ReconcileAligns | internal/controller/platformaccess_controller.go:73-98 | after an error-free reconcile that looked, the condition is True exactly when the user was in one of the two states, and the user is in the right one |
| PlatformAccess.ErrorFreeAligns | internal/controller/platformaccess_controller.go:54-114 | an error-free reconcile of an access object that tells the truth leaves a condition for the state asked for, whatever was edited before, and the user as asked |
| PlatformAccess.TrustsItsStatus | internal/controller/platformaccess_controller.go:133-136 | a True condition for the current state stops every later reconcile |
| PlatformAccess.LostPatchStrands | internal/controller/platformaccess_controller.go:92-98 | a lost patch leaves an approved user Inactive for good |
| PlatformAccess.EditedRefIgnored | internal/controller/platformaccess_controller.go:133-136 | a suspended access moved to another user leaves that user Active for good |
| PlatformAccess.DisplacedIsIgnored | internal/controller/platformaccess_controller.go:133-142 | from any such state a lock, a move or a deletion by somebody else is never noticed, however often the object is reconciled |
| ServiceAccount.ServiceAccountController.FinalizeAccount | internal/controller/serviceaccount_controller.go:58-92 | the machine user is deleted if it is there |
| ServiceAccount.ServiceAccountController.RunFinalizersOnce | internal/controller/serviceaccount_controller.go:117-130 | the finalizer step runs exactly on a live object without and a dying one with the finalizer |
| ServiceAccount.ServiceAccountController.UpdateServiceAccountState | internal/controller/serviceaccount_controller.go:215-251 | which state call, the skip for a new active account, the error for any other state |
| ServiceAccount.ServiceAccountController.ReconcileOnce | internal/controller/serviceaccount_controller.go:98-194 | both stores after one reconcile, for every reply |
| ServiceAccount.StepKeepsIff | internal/controller/serviceaccount_controller.go:98-194 | one action keeps the status true of the machine user's state exactly when it is neither a reconcile whose state call takes effect and whose status update is not stored, nor a console action that contradicts the status |
| ServiceAccount.StatusAlwaysTells | internal/controller/serviceaccount_controller.go:172-190 | every run, console actions included: at every boundary a live object's non-empty status is the machine user's state, if and only if no step is one of those |
| ServiceAccount.NoAccountLeftBehind | internal/controller/serviceaccount_controller.go:117-181 | every run: at every boundary the machine user exists only behind the finalizer, if and only if no reconcile makes it on a dying object whose finalizer is already off |
| ServiceAccount.NoForeignNoneLeft | internal/controller/serviceaccount_controller.go:117-130 | every run without a foreign finalizer: that never happens |
| ServiceAccount.OneReconcileSettles | internal/controller/serviceaccount_controller.go:132-194 | an error-free reconcile past the finalizer leaves organization, user, state and status as the spec asks |
| ServiceAccount.SettledIsFixpoint | internal/controller/serviceaccount_controller.go:132-194 | the next one calls no mutation and changes nothing |
| ServiceAccount.AlwaysMadeFor | internal/controller/serviceaccount_controller.go:151-170 | every run: the machine user is in the organization of its project, under its computed address and its name |
| ServiceAccount.TwoReconcilesSettle | internal/controller/serviceaccount_controller.go:98-194 | after any run that strands nobody two error-free reconciles reach the fixpoint: the machine user asked for, in the state asked for |
| ServiceAccount.CallsAreDue | internal/controller/serviceaccount_controller.go:141-176 | a user is created only in an existing organization, a state is asked only of an existing user and only when spec and status differ, a deletion only behind the finalizer |
| ServiceAccount.ChangesAreCalled | internal/controller/serviceaccount_controller.go:132-176 | nothing changes in Zitadel without the call that does it |
| ServiceAccount.OneReconcileDrains | internal/controller/serviceaccount_controller.go:58-130 | a dying object loses its machine user and the finalizer in one error-free reconcile |
| ServiceAccount.DyingObjectRecreatesUser | internal/controller/serviceaccount_controller.go:132-181 | exactly when a reconcile of a dying object creates a machine user |
| ServiceAccount.ForeignFinalizerLeavesAccount | internal/controller/serviceaccount_controller.go:117-181 | with nothing failing, a foreign finalizer is enough to leave an active account behind |
| ServiceAccount.LostUpdateStrands | internal/controller/serviceaccount_controller.go:172-190 | a lost status update leaves an Active object with a deactivated user for good |
| PendingAvatars.NormalizeTwice | internal/httpactionsserver/avatar_sync.go:28-30 | normalizing an address again changes nothing |
| PendingAvatars.SpellingsShare | internal/httpactionsserver/avatar_sync.go:28-30 | two spellings share an entry exactly when they agree up to case, blanks at the ends aside |
| PendingAvatars.AvatarServer.StorePendingAvatar | internal/httpactionsserver/avatar_sync.go:50-60 | stored under the normalized address for 15 minutes, unless one of the two is empty |
| PendingAvatars.AvatarServer.ConsumePendingAvatar | internal/httpactionsserver/avatar_sync.go:62-76 | taken out, and dropped if now is past the expiry |
| PendingAvatars.AvatarServer.PatchUserAvatar | internal/httpactionsserver/avatar_sync.go:94-114 | without interference the User has exactly the avatar and provider, its other fields and the other Users as they were |
| PendingAvatars.AvatarServer.ApplyPendingAvatarByEmail | internal/httpactionsserver/avatar_sync.go:116-131 | the map and the Users in every case: applied, shown and gone from the map; failed, pending again with a new expiry |
| PendingAvatars.GetUserWithRetry | internal/httpactionsserver/server.go:558-583 | the first answer that is not "missing", or "missing" after the last attempt; total wait is (2^n - 1) bases |
| PendingAvatars.AlwaysConserved | internal/httpactionsserver/avatar_sync.go:50-131 | every interleaving: each stored avatar has exactly one fate, and the fate is where it is |
| PendingAvatars.IntentIsPending | internal/httpactionsserver/avatar_sync.go:50-60 | an intent with an address and an avatar is pending for 15 minutes, in place of what was pending there |
| PendingAvatars.TakenIff | internal/httpactionsserver/avatar_sync.go:62-76 | a take empties the entry and hands its avatar on exactly if no more than 15 minutes have passed since it was stored |
| PendingAvatars.LandingsCounted | internal/httpactionsserver/avatar_sync.go:116-131 | every run: an avatar reached its User once if it is delivered, and once more for each of its patches whose answer was lost |
| PendingAvatars.AppliedOnce | internal/httpactionsserver/avatar_sync.go:116-131 | every run: the avatars that reached a User are the delivered ones, each once, if and only if no patch that reached its User lost its answer |
| PendingAvatars.AlwaysTakenInTime | internal/httpactionsserver/avatar_sync.go:72-74 | every avatar that reached a User was taken no later than the expiry of its latest store |
| PendingAvatars.FailedPatchPutsBack | internal/httpactionsserver/avatar_sync.go:125-129 | the avatar is pending again with a full lifetime; exactly what was pending there by then is displaced |
| PendingAvatars.LandingShows | internal/httpactionsserver/avatar_sync.go:106-109 | from any reachable state: exactly when the User shows the avatar after a patch that took effect |
| PendingAvatars.UninterruptedApply | internal/httpactionsserver/avatar_sync.go:116-131 | the interleaved steps without interference do what the handler does |
| PendingAvatars.LandsAfterExpiry | internal/httpactionsserver/avatar_sync.go:72-74 | an avatar can reach the User any time after its expiry |
| PendingAvatars.LostPatchLandsAndStaysPending | internal/httpactionsserver/avatar_sync.go:125-129 | in any state: a patch stored but reported failed leaves its avatar shown by the User, landed once more, and pending |
| ShutdownGroup.ReturnsAfterAll | cmd/controller/controller.go:530-551 | it returns only after the manager and all workers returned, with the first error that is not a cancellation |
| ShutdownGroup.FirstErrorIsFirst | cmd/controller/controller.go:680-685 | that error is one report's, all earlier ones being clean; none when all are |
| ShutdownGroup.NilIffClean | cmd/controller/controller.go:680-685 | the answer is nil exactly when no process returned an error other than cancellation |
| ShutdownGroup.ReturnCancels | cmd/controller/controller.go:545-548 | once the manager is done, or any process failed, the shared context is cancelled |
| ShutdownGroup.CancelledIff | cmd/controller/controller.go:535-548 | every run: the shared context is cancelled exactly when a signal came, the manager returned and its deferred cancel ran, or the group heard of an error |
| ShutdownGroup.RunsAreShort | cmd/controller/controller.go:535-550 | every run with n workers has at most 4n + 6 steps |
| ShutdownGroup.RestsOnlyAtWork | cmd/controller/controller.go:535-550 | if processes return on cancellation, a run is stuck exactly when it has returned or the group is at work |
| RecoveryLink.UnescapeEscape | internal/recoverymail/email.go:143-151 | every byte string is read back from its escaped form, by Go's reader and by the URL Standard's |
| RecoveryLink.UnescapeFailsIff | internal/recoverymail/email.go:145 | the strict reader refuses exactly the texts with a percent sign not followed by two hexadecimal digits |
| RecoveryLink.ParseEncode | internal/recoverymail/email.go:145-148 | every list of pairs is read back exactly, in order |
| RecoveryLink.SortedKeysList | internal/recoverymail/email.go:148 | the encoder's key order: every key once, in byte order |
| RecoveryLink.QueryEncode | internal/recoverymail/email.go:145-148 | the query of an encoded map is that map |
| RecoveryLink.FragmentIsTheCode | internal/recoverymail/email.go:139-151 | the text after the only '#' reads as a form with exactly the code |
| RecoveryLink.ServerSeesIdsOnly | internal/recoverymail/email.go:127-150 | before the '#': the same for every code, the base's place, the base's query with userId and codeId replaced |
| RecoveryLink.LinkTellsCode | internal/recoverymail/email.go:143-151 | a base fragment never reaches the link; different codes give different links |
| RecoveryLink.CodeStaysInTwoFields | internal/recoverymail/email.go:71-122 | mails for different codes agree on all but the code and the link, and the links agree up to the '#' |
| RecoveryLink.MailFields | internal/recoverymail/email.go:71-122 | name, labels, recipient, lifetime and requester of the mail, and a link whose query has each identifier under its own name |
| RecoveryLink.MailName | internal/recoverymail/email.go:72-75 | the name it greets with: the two names without the blanks around them, or the address |
| SuspiciousLogin.ParseFamily | internal/httpactionsserver/session_added.go:345-426 | words of a comma list first, then marks anywhere, in table order |
| SuspiciousLogin.CaseDoesNotMatter | internal/httpactionsserver/session_added.go:345-390 | user agents that agree up to the case of letters have the same browser and device |
| SuspiciousLogin.FamilyByMark | internal/httpactionsserver/session_added.go:364-426 | outside comma lists the family is that of the first mark in table order that occurs, up to case; there is one exactly when some mark does |
| SuspiciousLogin.BrowserByMark | internal/httpactionsserver/session_added.go:409-425 | the browser of a user agent that is no comma list, mark by mark |
| SuspiciousLogin.DeviceByMark | internal/httpactionsserver/session_added.go:367-386 | the device, mark by mark |
| SuspiciousLogin.SplitJoin | internal/httpactionsserver/session_added.go:348 | splitting a comma list gives back its pieces |
| SuspiciousLogin.FamilyOfList | internal/httpactionsserver/session_added.go:346-365 | in a comma list the first piece that names a family decides; if none does, the marks do |
| SuspiciousLogin.PieceNames | internal/httpactionsserver/session_added.go:349-364 | a piece names the family of a word if it is that word, blanks and case aside |
| SuspiciousLogin.UpdateKeepsKey | internal/httpactionsserver/session_added.go:333-343 | exchanging a run of digits and dots leaves a recognised user agent's key, and only a recognised one's |
| SuspiciousLogin.KeyTellsFamilies | internal/httpactionsserver/session_added.go:337-343 | recognised user agents share a key exactly when they share browser and device family |
| SuspiciousLogin.IsSuspiciousLogin | internal/httpactionsserver/session_added.go:177-212 | the scan flags exactly what is suspicious against the set of previous sessions |
| SuspiciousLogin.FindSessionByID | internal/httpactionsserver/session_added.go:155-162 | the first session with the ID, or none |
| SuspiciousLogin.GetPreviousSessions | internal/httpactionsserver/session_added.go:165-174 | all sessions but those with the ID, in order |
| SuspiciousLogin.SessionAdded | internal/httpactionsserver/session_added.go:130-144 | flagged exactly when not made with a passkey and suspicious against the other sessions |
| SuspiciousLogin.OnlyTheSetMatters | internal/httpactionsserver/session_added.go:130-212 | order and repetition of the listing do not matter |
| SuspiciousLogin.MoreHistoryNeverFlags | internal/httpactionsserver/session_added.go:177-212 | a longer non-empty history never newly flags |
| SuspiciousLogin.UpdatedBrowserIsKnown | internal/httpactionsserver/session_added.go:333-343 | the place, device and recognised browser of an earlier session in another version are not flagged |
| SuspiciousLogin.UpdatedUsualBrowserIsKnown | internal/httpactionsserver/session_added.go:333-343 | so it is for every user agent that contains "Firefox/", "Edg/", "OPR/", "Chrome/", "Safari/" or another usual mark |

## Left out

- HTTP, gRPC, GraphQL, TLS and Kubernetes client plumbing: a call is a reply of the environment.
- RSA signing, SHA-256 names and UUIDs: opaque results.
- JSON decoding, webhook signatures, logging, Prometheus registration, flags and configuration.
- The Start loops' tickers, leader election, work queues and the retry helper's waiting times.
- Stale informer caches: reads are fresh except the sweeper's snapshot, its page, and the copies a writer holds.
- More than one worker for one object: controller-runtime runs one.
- TwoStores.RunKeeps: the User controller is modelled on values, one remote call per step, not as a class, because its calls interleave with everybody else's; updates in place are not captured.
- TwoStores.RunKeeps: two collectors or two sweepers at once; the manager runs one of each.
- RecoveryBudget.HourlyCap: creation times are exact; the API server truncates them to whole seconds, so the bound then holds for windows one second shorter.
- RecoveryBudget.RecoveryService.Serve: the checks before the User is read (method, size, returnTo allowlist), and the name of the Email.
- AssertionCache.SigningRate: clock readings are one monotone clock in unbounded nanoseconds.
- PlatformAccess.ReadyMeansAligned: two PlatformAccess objects naming one user; the wording of messages, except the parts that vary.
- PlatformAccess.RepeatIsQuiet: a missing user's message is taken to be the same each time.
- ServiceAccount.StatusAlwaysTells: condition transition times, and an operator who makes a user under the UID of the object.
- ServiceAccount.NoAccountLeftBehind: an operator who strips the finalizer off by hand.
- PendingAvatars.AlwaysConserved: a process restart drops the map.
- PendingAvatars.NormalizeTwice: letters and blanks beyond ASCII.
- PendingAvatars.GetUserWithRetry: the 63-bit overflow of the shifted wait.
- StatusFields.PatchKeepsRest: structure inside a field's value; a field is absent or one text, and absent when empty.
- StatusWriters.NoLostUpdate: writers of the verification field other than `Set`; the package is its only writer.
- ShutdownGroup.FirstErrorIsFirst: the errgroup hears of a process in one step, after its function and its deferred calls.
- RecoveryLink.FragmentIsTheCode: the UTF-8 decoding after percent-decoding; codes are bytes.
- RecoveryLink.ServerSeesIdsOnly: how url.URL prints scheme, host and path; it is one text without '?' and '#'.
- RecoveryLink.QueryEncode: the parameter-count limit of newer Go releases.
- SuspiciousLogin.UpdateKeepsKey: lower-casing beyond ASCII.
- SuspiciousLogin.KeyTellsFamilies: a raw unrecognised string can equal a family key, so only recognised ones are compared.
- The suspicious-login email itself, the GraphQL user-agent and location look-ups, self-scoped identity reads, TokenReview shaping: single-branch facts.
