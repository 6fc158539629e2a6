# Kalm: a verified model

A Dafny model of the algorithms and protocols inside Kalm, the Kubernetes application manager, with proofs of what
they guarantee. `dafny verify dfyconfig.toml` checks everything.

**Persistent volumes** (`Volumes`, `VolumeControllers`, `VolumePasses`, `VolumeFaults`, `VolumeRuns`, `VolumeCalls`,
`VolumeSafety`, `VolumeReference`, `VolumeRace`, `VolumeRefinement`, `VolumeOwnRuns`, `VolumeMeaning`, `VolumeWrites`). The PV controller, the component controller's
re-use path and the delete handler share volumes and claims and coordinate only through labels and claim references.
The methods of `VolumeControllers` are the code, any call of which may fail; each is proved to leave the state its
specification function gives, or a named part of that work. `VolumeFaults` shows that a stopped pass loses nothing
and what failures that are passed over cost. `VolumeRuns` takes whole passes, complete or stopped, as atomic
steps and adds the Kubernetes binder and users; the lock properties are stated there. `VolumeCalls` takes single
API calls as steps, any number of parties interleaving, updates refused on stale copies. There a deletion is
always justified by the copy it was judged on, but the delete call carries no revision: `VolumeRace` gives the run
in which the volume removed is no longer the one judged, and `VolumeReference` says which steps that takes.
`VolumeRefinement` ties the two levels together: each atomic pass, complete or stopped, is what one pass of its party
does by its own calls alone; `VolumeOwnRuns` proves the converse for the handler and the component controller.
`VolumeMeaning` says what passes and requests leave, and `VolumeWrites` what single calls write in any interleaving,
in the fields of the objects themselves.

**RBAC** (`PolicyText`, `Rbac`, `RbacCompiler`, `RbacCorrect`, `RbacCluster`, `RbacClients`, `RbacIndex`, `RbacText`,
`RuleText`, `RuleDecisions`, `RbacManager`, `RbacRuns`, `RbacMeaning`). Role bindings, tokens and namespaces are compiled to policy
text, loaded, and matched. The compiler is proved correct against a direct reading of the objects, and delegation sound and exact. The
text is part of the model: policies in force are what is loaded from it, and exact conditions say when nothing is
lost on the way. The informer-fed index equals the live objects exactly as long as no two role bindings share the
joined key `namespace-name`.

**HTTP routes** (`RouteRules`, `RouteOrder`, `RouteServing`, `RouteWeights`, `RouteReconcile`, `RouteConvergence`, `RouteMeaning`).
Routes are compiled to first-match rule lists per host, sorted, and saved by a reconcile loop any call of which may
fail and whose updates carry the revision listed at its start. Serving, path stripping and weights are proved from
the meaning of the rules; convergence holds under a condition on service names that is shown to be exact, and so are
the conditions under which an order of saves goes through.

**Token refresh** (`SingleFlight`, `SingleFlightRuns`): the single-flight protocol over every interleaving,
including tokens too short for the debug line that cuts ten characters off them.

**ACME issuer** (`AcmeIssuer`, `AcmePasses`), **pod resources** (`PodResources`), **metric series**
(`MetricHistory`), **StatefulSet volume updates** (`VolumeUpdates`) and **in-place filters** (`RecordFilter`) are
modelled as loops over maps and arrays and proved against specifications.

Where the code and its intent part ways, the code is kept and the exact condition is proved:

- a foreign claim under an orphan claim's name is taken for it (`EveryOrphanHasItsClaim`);
- adoption keeps the old claim reference when only its namespace or only its name differs (`AdoptionFreesVolumeIff`);
- a deletion is not tied to the revision judged (`DeletionsAreJustified`, `RemovedVolumesClaim`,
  `DeletedWhileBoundElsewhere`);
- a volume freed after its old claim was gone is not locked and gets an orphan claim (`OrphanClaimAfterFreeingIff`);
- a claim in use is deleted when its pods cannot be listed (`ReuseDeletesClaimIff`, `RequestDeletesClaimIff`), and a
  request that failed half way still dooms the volume (`FailedRequestDooms`);
- a namespace called "cluster" is read as the cluster (`ClusterReadingIsExactIff`);
- a subject or rule with a comma, a line break or outer space is read as something else (`SubjectsDecideIff`,
  `RulesDecideIff`, `CommaMakesOwner`);
- colliding joined keys lose a role binding (`IndexIsExactIff`);
- colliding service names, or a name left by a removed host, leave a routed host without a service
  (`AllServedIff`), hosts that share a name block one another (`SomeOrderPassesIff`), and two redirecting routes of
  one name keep the reconcile loop failing (`Run`);
- sixteen or more destinations can produce a negative weight (`NonNegativeIff`);
- short refresh tokens get stuck (`LeavesIffLoggable`), and an early reader may find half a result (`EarlyReadIff`);
- shared new domains are registered more than once (`RegisteredOnceIff`), stale status entries stay
  (`OldEntriesStay`), and a created issuer's full domain is the server's (`CreatedPassAgreesIff`);
- a version without a storage class lets the class drift (`ClassKeptIff`).

## Model

| member | source | states |
|---|---|---|
| VolumeControllers.ReconcileForClaimChange | controller/controllers/kalm_pv_controller.go:70-85 | The pass over all managed volumes, call by call and in any list order, leaves exactly the state of the specification `ClaimChangePass`: doomed volumes deleted, then every orphan adopted; a pass ended by a failed call has stopped at a named point of that work |
| VolumeControllers.DeleteMarkedVolumes | controller/controllers/kalm_pv_controller.go:91-134 | The delete phase removes every managed volume whose mark names its claim and whose claim is gone, and no other; a failed look-up or delete ends it after a prefix of the list |
| VolumeControllers.ReconcileOrphans | controller/controllers/kalm_pv_controller.go:214-261 | The adoption phase works from the copies listed before the delete phase, yet acts only on volumes that are still there; a failure leaves some adopted and at most one half done |
| VolumeControllers.FindOrphans | controller/controllers/kalm_pv_controller.go:214-261 | The orphans found are exactly the listed volumes labelled "true" as Kalm's that have no claim reference or one into a namespace that is gone, each once |
| VolumeControllers.ReconcileOrphan | controller/controllers/kalm_pv_controller.go:263-345 | One adoption: the stale claim reference is dropped, then the claim in the system namespace is created unless there is one of that name; a refused update ends it unchanged, a later failure with the reference dropped |
| VolumeControllers.ReconcileVolume | controller/controllers/kalm_pv_controller.go:138-185 | Reconciling one volume copies labels from its Kalm claim and gives the lock back, or adopts it when the claim is gone; a failure leaves it unchanged or half adopted |
| VolumeControllers.ClaimIsInUse | controller/controllers/component_controller.go:2082-2108 | True exactly when the pods were listed and one of the namespace mounts the claim: a failed list other than not-found reads as no pod |
| VolumeControllers.ReconcileVolumeForReuse | controller/controllers/component_controller.go:1998-2073 | Freeing a volume for re-use: the outcome is the specification's for the answers it got - a failed pod list reads as unused, a failed update is passed over - and any other failure leaves all as it was |
| VolumeControllers.PrepareClaim | controller/controllers/component_controller.go:1908-1967 | The claim is created only when it is not there yet and only after the volume was dealt with; nil is returned only when it is there |
| VolumeControllers.HandleDeleteClaim | api/handler/volumes.go:78-142 | A delete request is granted exactly for an editor, an existing claim and no pod seen to use it; then the volume that refers to it is marked and the claim deleted; a failed call leaves all as it was or the mark alone |
| VolumePasses.EveryOrphanHasItsClaim | controller/controllers/kalm_pv_controller.go:214-345 | After a pass every volume still left alone has its own claim; the claim selects that volume if and only if no foreign claim sat under its name |
| VolumePasses.OrphanClaimsAreSeparate | controller/controllers/kalm_pv_controller.go:263-345 | Claims made for two volumes never coincide |
| VolumePasses.AdoptionFreesVolumeIff | controller/controllers/kalm_pv_controller.go:263-345 | Adoption clears the claim reference exactly when the old claim shares neither namespace nor name with the new one |
| VolumePasses.PassIsIdempotent | controller/controllers/kalm_pv_controller.go:70-85 | A second pass changes nothing |
| VolumeFaults.NextPassCompletes | controller/controllers/kalm_pv_controller.go:70-85 | Wherever a pass is stopped by a failed call, the next complete pass reaches exactly what one undisturbed pass would have reached |
| VolumeFaults.ReuseDeletesClaimIff | controller/controllers/component_controller.go:2008-2108 | Preparing a claim deletes exactly the old claim of the retained volume asked for, unless a pod is seen to use it; a claim in use is deleted if and only if the pods could not be listed |
| VolumeFaults.ClaimMadeForFreeVolumeIff | controller/controllers/component_controller.go:1998-2073 | Once the claim is created, the volume it asks for is free if and only if it could be had and its update was stored; the claim is created either way |
| VolumeFaults.RequestDeletesClaimIff | api/resources/volumes.go:99-109 | A request on an existing claim deletes it if and only if no pod is seen to use it and the last calls are answered, so a failed pod list lets a claim in use go |
| VolumeFaults.FailedRequestDooms | api/handler/volumes.go:119-139 | A request that fails after the mark leaves the claim; whoever removes the claim later, the managed volume goes with it |
| VolumePasses.DoomedIsNotAdoptable | controller/controllers/kalm_pv_controller.go:91-134 | What the delete phase removes, the adoption phase never touches through its stale copy |
| VolumeMeaning.ClaimPassOnVolume | controller/controllers/kalm_pv_controller.go:70-134 | In the objects' own fields: a pass deletes exactly the managed volumes whose mark reads namespace-name of a claim that is gone, drops the reference of exactly those it adopts from a foreign claim, and changes no other |
| VolumeMeaning.ClaimPassOnClaim | controller/controllers/kalm_pv_controller.go:214-345 | A claim is there after a pass if and only if it was before or is the own one of an unreachable volume that is managed, unmarked and not locked by another; old claims stay as they are and a new one selects its volume with its size, class and labels |
| VolumeMeaning.VanishedNamespaceIsNoticed | controller/controllers/kalm_pv_controller.go:237-249 | A volume whose claim lies in a namespace that is gone gets its own claim, and loses the old reference unless namespace or name agree |
| VolumeMeaning.VolumePassOnVolume | controller/controllers/kalm_pv_controller.go:138-185 | The pass over one volume: under an existing managed claim the volume carries the managed label, its own name and the claim's component and namespace, and no lock; every other label and field, and every other volume, is as before |
| VolumeMeaning.VolumePassOnClaims | controller/controllers/kalm_pv_controller.go:138-345 | It makes no claim but the own one of a volume that may be adopted and whose claim is gone |
| VolumeMeaning.ReuseOnVolume | controller/controllers/component_controller.go:1998-2080 | What a claim preparation leaves of the volume asked for: free, free under the component lock, or untouched, with the condition for each on the objects and the answers |
| VolumeMeaning.ReuseOnClaim | controller/controllers/component_controller.go:1908-2073 | Which claims are there afterwards: all but the old claim of a retained volume with no pod seen on it, and the new one unless the create failed or the label map was nil |
| VolumeMeaning.RequestMeans | api/handler/volumes.go:78-142 | A granted request writes namespace-name of the claim on the volume that refers to it, takes the claim away, and changes no other object, label or field |
| VolumeRuns.MarkMeansRequested | api/handler/volumes.go:78-142 | Over every run of atomic passes, complete or stopped, a mark is evidence that a user asked to delete the very claim the volume still refers to, when it existed and no pod was seen to use it |
| VolumeRuns.KalmDeletesOnlyOnRequest | controller/controllers/kalm_pv_controller.go:91-134 | Over every run: a complete pass deletes exactly the managed, marked volumes whose claim is gone, a stopped pass no other, and the deletion of that claim was requested earlier |
| VolumeRuns.OnlyTheClaimPassDeletes | controller/controllers/kalm_pv_controller.go:91-134 | No other step of Kalm deletes a volume |
| VolumeRuns.UsedClaimsStay | controller/controllers/component_controller.go:2082-2108 | Whatever Kalm does, complete or stopped: a claim some pod mounts stays, unless the component controller or the delete handler failed to list the pods |
| VolumeRuns.FreeingTakesLock | controller/controllers/component_controller.go:2056-2080 | Freeing a volume whose old claim is still there leaves it unmarked, unbound and under the component lock |
| VolumeRuns.OrphanClaimAfterFreeingIff | controller/controllers/component_controller.go:2026-2073 | After the re-use path dropped the reference of a managed, unlocked volume, the next claim pass makes an orphan claim for it if and only if the old claim was gone already: then no lock is taken |
| VolumeRuns.HeldStep | controller/controllers/kalm_pv_controller.go:138-185 | Every step but the unlocking pass keeps a held volume held, unless it is deleted on a mark |
| VolumeMeaning.UnlockingGivesLockBack | controller/controllers/kalm_pv_controller.go:178-178 | The unlocking pass takes the lock label off, so the volume is no longer held |
| VolumeRuns.LockProtects | controller/controllers/kalm_pv_controller.go:138-185 | From the freeing step to the unlocking pass of any run the volume stays locked, gets no orphan claim, and disappears only after a request to delete its new claim |
| VolumeSafety.InvHolds | controller/controllers/kalm_pv_controller.go:55-345 | With single API calls interleaved freely, any number of parties and updates refused on stale copies: marks in the store and in every copy held are evidence of a request for that claim |
| VolumeSafety.DeletionsAreJustified | controller/controllers/kalm_pv_controller.go:91-134 | In every interleaving a deletion was judged on a marked copy whose claim's deletion was granted and which was later seen gone; the object removed is the judged one if and only if its revision did not change |
| VolumeSafety.EventsAreTrue | controller/controllers/kalm_pv_controller.go:91-134 | What the observer noted was so at that moment: granted means the handler saw no pod use the claim, gone means the claim was not there |
| VolumeReference.DeletionStory | controller/controllers/kalm_pv_controller.go:91-134 | Every deletion was preceded by a granted request for the judged copy's claim and, after that, by a look-up that found the claim gone |
| VolumeReference.ReferenceKept | controller/controllers/kalm_pv_controller.go:309-320 | Only three steps end a stored claim reference: an accepted update that frees the volume, a delete, a reclaim; no party ever writes another reference in its place |
| VolumeReference.CopyWasStored | controller/controllers/kalm_pv_controller.go:73-78 | Every copy a party holds was once the stored object |
| VolumeReference.RemovedVolumesClaim | controller/controllers/kalm_pv_controller.go:91-134 | If the volume removed still refers to the judged claim the deletion is justified whatever its revision; it refers to anything else only if it was freed or removed since the copy was taken |
| VolumeSafety.MarksAreEvidence | api/handler/volumes.go:78-142 | At every moment of every interleaving a stored mark names the volume's own claim and that claim's deletion was granted |
| VolumeWrites.UpdatesMean | controller/controllers/kalm_pv_controller.go:138-320 | In every interleaving an update that is stored changes one volume, as it was read: the PV controller writes a managed claim's description or takes the volume over from a foreign claim, the component controller releases the volume its claim asks for, the handler adds a clean request for its claim |
| VolumeWrites.NewClaimsMean | controller/controllers/kalm_pv_controller.go:263-345 | In every interleaving the PV controller takes no claim away and makes none but the own claim of a volume that once was stored managed, unmarked, not locked by another and without a foreign claim: a refused update ends the adoption |
| VolumeWrites.RemovalsMean | controller/controllers/kalm_pv_controller.go:91-134 | In every interleaving a volume goes away only by its reclaim or by a delete judged on a copy with Kalm's label and a mark that reads namespace-name of its claim |
| VolumeRace.DeletedWhileBoundElsewhere | controller/controllers/kalm_pv_controller.go:91-134 | The revision condition is needed: a run of thirteen calls deletes a volume that is bound to another, live claim nobody asked to delete |
| VolumeRefinement.HandlerPassIsCalls | api/handler/volumes.go:78-142 | The atomic delete request, with every failure, is what one pass of the handler does by its own calls alone, nobody else making any |
| VolumeOwnRuns.HandlerRunsAreRequests | api/handler/volumes.go:78-142 | What a handler can do by its own calls alone, from start to end, is exactly what some granted request does, or nothing |
| VolumeOwnRuns.ComponentRunsArePreparations | controller/controllers/component_controller.go:1908-2073 | What a component controller can do by its own calls alone, from start to end, is exactly what some claim preparation does with some answers |
| VolumeRefinement.ComponentPassIsCalls | controller/controllers/component_controller.go:1908-1967 | The atomic claim preparation, on every branch - claim there, plain claim, volume missing, re-use, panic - and with every failure, is what one pass of the component controller does by its own calls alone |
| VolumeRefinement.VolumePassIsCalls | controller/controllers/kalm_pv_controller.go:138-185 | The atomic pass over one volume is what one pass of the PV controller does by its own calls alone |
| VolumeRefinement.StoppedVolumePassIsCalls | controller/controllers/kalm_pv_controller.go:138-185 | So is that pass stopped by a failed call |
| VolumeRefinement.ClaimChangePassIsCalls | controller/controllers/kalm_pv_controller.go:70-85 | The whole pass over any number of volumes is what one pass of the PV controller does by its own calls alone |
| VolumeRefinement.StoppedPassIsCalls | controller/controllers/kalm_pv_controller.go:70-85 | So is that pass wherever a failed call stops it |
| PolicyText.StringPolicyAdapter.LoadPolicy | api/rbac/string_policy_adapter.go:24-35 | Loading goes through the text line by line and skips empty lines; the policies are those of `Load` |
| PolicyText.StringPolicyAdapter.SetPoliciesString | api/rbac/string_policy_adapter.go:20-22 | The text to load next is replaced |
| PolicyText.RoundTrip | frontend/src/rbac/casbin/persist.ts:7-51 | Writing one policy and loading the text gives it back exactly when its key is known and no field holds a separator, a line break or outer space |
| PolicyText.LoadUnlines | api/rbac/string_policy_adapter.go:24-35 | A text of whole lines loads to what its lines load to, in order |
| PolicyText.TrimMeans | frontend/src/rbac/casbin/persist.ts:12-12 | Trimming takes exactly the Unicode white space off both ends |
| Rbac.ObjMatchMeaning | api/rbac/model.go:20-32 | A pattern matches itself literally, or whatever begins with the part before its first star |
| Rbac.ObjMatchReflexive | api/rbac/model.go:20-32 | Every pattern matches itself |
| Rbac.ObjMatchTransitive | api/rbac/model.go:20-32 | Matching composes: what a covered pattern matches, the covering pattern matches |
| Rbac.TenStepsAreFollowed | frontend/src/rbac/casbin/roleManager.ts:30-44 | Along a chain of memberships a subject has exactly the roles at most ten steps away |
| RbacCompiler.RoleNameInjective | api/client/standard_manager.go:95-103 | Role names tell namespaces and levels apart when namespace names have no upper-case letter |
| RbacCorrect.LinkToRole | api/client/standard_manager.go:54-70 | A subject reaches a role name exactly when a live binding gives it that role, or a higher one in the cluster or an enabled namespace |
| RbacCorrect.RolesBelow | api/client/standard_manager.go:43-70 | From a role name exactly the lower levels of the same namespace are reachable |
| RbacCorrect.LinkToSubject | api/client/standard_manager.go:105-157 | Subjects are never members of one another |
| RbacCorrect.CompilerIsCorrect | api/client/standard_manager.go:105-157 | For all live objects, subjects, verbs, scopes and objects: reachability plus the matcher on the compiled policies allows exactly what a direct reading of bindings, tokens and enabled namespaces allows, cross-namespace view grants included |
| RbacMeaning.CompiledMeans | api/client/standard_manager.go:43-157 | The same in plain words, for every request: verbs "view", "edit" and "manage", subjects "user-" and "group-", the label "kalm-enabled", storage classes and registries, and for tokens the rule's verb, namespace, kind and name |
| RbacMeaning.PlainRuleAllows | api/client/standard_manager.go:78-81 | A token's rule without a star allows exactly the object kind + "/" + name, wherever the rule reaches |
| RbacMeaning.StarNameAllows | api/client/standard_manager.go:78-81 | A rule for every name of a kind in one namespace allows exactly the objects that begin with the kind and a slash |
| RbacMeaning.BothStarsAllow | api/client/standard_manager.go:78-81 | A rule for every name in every namespace allows every object, whatever its kind |
| RbacMeaning.RuleIsConfined | api/client/standard_manager.go:125-136 | A rule allows no other verb and nothing outside its namespace |
| RbacClients.Wrapper | api/client/base.go:78-110 | A client may exactly when one of its subjects may: the impersonated one alone, or its email and each group |
| RbacClients.SubjectsSpeak | api/client/base.go:78-110 | The subjects are "user-" or "group-" with the impersonated name alone, or "user-" with the email and "group-" with each group, and no others |
| RbacClients.PermissionsCover | api/client/base.go:152-162 | Passes exactly when the client may use every rule of the token: its verb, its namespace, and kind + "/" + name or the star |
| RbacClients.PatternsCompose | api/rbac/model.go:20-57 | Being allowed a pattern in a scope is being allowed everything it covers |
| RbacClients.DelegationIsSound | api/client/base.go:152-162 | Whoever passes the delegation check may do everything the token's rules allow |
| RbacClients.DelegationIsExact | api/client/base.go:152-162 | The check passes if and only if that holds for all requests |
| RbacClients.ShortFormsCover | api/rbac/enforcer.go:68-90 | A yes of the cluster form covers every namespace, a yes of the namespace form every object |
| RbacClients.ExcerptDecidesAlike | api/rbac/enforcer.go:92-110 | Policies excerpted for some subjects decide about them as all policies do |
| RbacClients.ExcerptAgrees | api/client/standard_manager.go:54-70 | For compiled policies, with or without a namespace called "cluster", an excerpt decides every request of the client as they do |
| RbacClients.GetCompletePoliciesFor | api/rbac/enforcer.go:92-110 | The text sent is the permission lines and direct memberships of the subjects, joined by line breaks |
| RbacClients.JoinedTextLoads | api/rbac/enforcer.go:92-110 | A text of clean lines joined by line breaks loads to exactly those lines |
| RbacClients.FrontendAgrees | api/handler/auth.go:64-79 | The text sent to the frontend, loaded there, decides every request of a client with clean subjects as the server does |
| RbacClients.CompiledIsShallow | api/client/standard_manager.go:54-70 | No compiled role lies beyond the depth the enforcer follows |
| RbacCluster.ClusterNamespaceMeansCluster | api/client/standard_manager.go:95-103 | Whether or not a namespace named "cluster" exists or is enabled: the policies decide as if every role bound in it were the cluster role |
| RbacCluster.ClusterReadingIsExactIff | api/client/standard_manager.go:95-103 | The compiled policies decide every request as the objects read directly if and only if every role bound in a namespace called "cluster" gives its subject nothing it does not have for the whole cluster anyway |
| RbacCluster.ViewerOfClusterSeesAll | api/client/standard_manager.go:95-103 | With that namespace enabled, a viewer of it and of nothing else may look at everything, which the objects do not say |
| RbacText.TextIsLosslessIff | api/client/standard_manager.go:105-157 | In whatever order the text is written, the policies loaded from it are the compiled ones if and only if every unexpired subject and rule is free of separators, line breaks and outer space |
| RbacText.SubjectsDecideIff | controller/api/v1alpha1/rolebinding_types.go:34-45 | With clean rules, and whichever namespaces are enabled: every text decides every request as the objects read directly (roles in a namespace "cluster" being the cluster's) if and only if every unexpired subject is clean |
| RbacText.UncleanSubjectIsRefused | api/client/standard_manager.go:143-147 | No text gives an unclean subject anything |
| RbacText.CommaCutsSubject | frontend/src/rbac/casbin/assertion.ts:18-31 | A subject that reads "x, y" is loaded as x being a member of y, and the role it was given is dropped |
| RuleText.LoadedRule | frontend/src/rbac/casbin/persist.ts:7-51 | What the written line of a token rule is loaded as, whatever its namespace, kind and name |
| RuleDecisions.TextReads | api/client/standard_manager.go:105-157 | With clean subjects and rules on one line each, every text is loaded as the compiled policies with each rule as it is read |
| RuleDecisions.RulesDecideIff | api/client/standard_manager.go:125-136 | Given the rules tokens may have, each on one line: every text of every set of such tokens, any namespaces and clean subjects decides every request as the objects do if and only if every rule has a clean namespace and an object clean up to its first star |
| RuleText.RuleIsReadAlikeIff | api/client/standard_manager.go:125-136 | A rule whose text stays on one line decides as it says if and only if its namespace is clean and its object is clean up to its first star |
| RbacManager.StandardClientManager.UpdatePolicies | api/client/standard_manager.go:105-157 | The policies in force are those loaded from a text of the indexed objects, written in some map order, whatever their names and subjects hold |
| RbacManager.StandardClientManager.OnNamespace | api/client/standard_manager.go:297-325 | An added or updated namespace is indexed and the policies in force follow |
| RbacManager.StandardClientManager.OnNamespaceDeleted | api/client/standard_manager.go:297-325 | A deleted namespace leaves the index and the policies in force follow |
| RbacManager.StandardClientManager.OnRoleBinding | api/client/standard_manager.go:329-357 | An added or updated role binding is indexed under the joined key and the policies follow |
| RbacManager.StandardClientManager.OnRoleBindingDeleted | api/client/standard_manager.go:329-357 | A deletion removes whatever sits under the joined key and the policies follow |
| RbacManager.StandardClientManager.OnAccessToken | api/client/standard_manager.go:361-389 | An added or updated token is indexed by name and the policies follow |
| RbacManager.StandardClientManager.OnAccessTokenDeleted | api/client/standard_manager.go:361-389 | A deleted token leaves the index and the policies follow |
| RbacManager.StandardClientManager.RegenerateLoopBody | api/client/standard_manager.go:280-287 | The timer judges expiry anew over the same index |
| RbacRuns.DecisionsFollowLiveObjects | api/client/standard_manager.go:289-398 | Over every history of events without a joined-key collision, the text written and loaded at each: at every moment at which the free text is clean, every decision is the direct reading of the live objects, expiry judged at the last event, roles in a namespace "cluster" read as the cluster's |
| RbacRuns.PoliciesFollowIff | api/client/standard_manager.go:105-157 | After every event the policies in force are those compiled from the live objects if and only if all unexpired free text is clean |
| RbacRuns.UncleanSubjectIsForgotten | api/client/standard_manager.go:143-147 | At every moment a live binding of an unclean subject in an enabled namespace allows its subject something and the policies in force allow it nothing |
| RbacRuns.CommaMakesOwner | api/client/standard_manager.go:143-147 | A binding whose subject continues ", role_clusterOwner" makes the name before the comma owner of the cluster, which no object says |
| RbacRuns.CommaBinding | controller/api/v1alpha1/rolebinding_types.go:34-36 | There is such a binding: the namespace viewer "x, role_clusterOwner" |
| RbacRuns.IndexIsExactIff | api/client/standard_manager.go:396-398 | The index holds exactly the live objects throughout a history if and only if no two live bindings ever share the joined key |
| RbacRuns.CollisionLosesObject | api/client/standard_manager.go:396-398 | Two live bindings under one joined key cannot both be in the index |
| RouteRules.BuildMatches | controller/controllers/http_route_controller.go:519-602 | The match list: per path one match - without uri for "/" - and for a stripped path a second one with a slash added |
| RouteRules.MethodRegexp | controller/controllers/http_route_controller.go:527-546 | The loop writes the anchored alternation of all methods |
| RouteRules.SchemeGateways | controller/controllers/http_route_controller.go:550-564 | One gateway per scheme, in order |
| RouteRules.BuildIstioHttpRoutes | controller/controllers/http_route_controller.go:239-250 | One rule per match, carrying the route's name and rewrite |
| RouteRules.BuildHostRules | controller/controllers/http_route_controller.go:318-328 | Every routed host gets the rules of all routes that name it, in list order |
| RouteRules.HostRulesMember | controller/controllers/http_route_controller.go:318-328 | A rule is on a host exactly when a route that names the host contributes it |
| RouteMeaning.RulesMean | controller/controllers/http_route_controller.go:67-602 | A rule is on a host exactly when a route that names the host writes it for one of its paths, field by field: name, uri, method expression, one gateway per scheme, conditions and rewrite |
| RouteMeaning.MatchCount | controller/controllers/http_route_controller.go:519-602 | One match per path and one more for each path to be stripped but "/" |
| RouteOrder.PanicsIff | controller/controllers/http_route_controller.go:253-294 | The comparison panics on some pair of a list exactly when the list holds an exact match |
| RouteServing.CompiledRulesNeverPanic | controller/controllers/http_route_controller.go:253-294 | It never panics on rules the compiler built |
| RouteOrder.StrictWeakOrder | controller/controllers/http_route_controller.go:253-294 | The comparison is a strict weak order; rules tie exactly when their uris are equal |
| RouteOrder.AboveExtendsPrefix | controller/controllers/http_route_controller.go:292-293 | A string sorts before each of its proper prefixes |
| RouteOrder.FirstMatch | controller/controllers/http_route_controller.go:252-294 | First match: the rule found accepts, none before it does, and none is found only when none accepts |
| RouteOrder.LongestPrefixWins | controller/controllers/http_route_controller.go:253-294 | On every sorted list the first accepting rule has a longest prefix among all that accept; one without uri wins only alone |
| RouteOrder.SortSlice | controller/controllers/http_route_controller.go:330-334 | The list saved is a sorted permutation |
| RouteServing.VerbsAccepted | controller/controllers/http_route_controller.go:527-546 | The method expression accepts exactly the route's methods |
| RouteServing.GatewaysListed | controller/controllers/http_route_controller.go:550-564 | A gateway is listed exactly when its scheme is |
| RouteServing.ServedIffRouted | controller/controllers/http_route_controller.go:318-338 | Some rule of the sorted list serves a request if and only if some route on the host is meant to |
| RouteServing.LongestPathServes | controller/controllers/http_route_controller.go:318-338 | The serving rule belongs to a serving route and path, and no other serving path is longer except that path with a slash when it is stripped |
| RouteServing.SlashRuleFirst | controller/controllers/http_route_controller.go:581-598 | Of the two rules of a stripped path the one with the slash serves whenever it accepts |
| RouteServing.StrippedPath | controller/controllers/http_route_controller.go:581-598 | Path + "/" + s is rewritten to "/" + s, path + s to "/" + s; a double slash comes out exactly when the request had one after the path |
| RouteServing.UnstrippedPath | controller/controllers/http_route_controller.go:92-96 | Without stripping, or for "/", the path is passed on unchanged |
| RouteWeights.AdjustBiggestWeight | controller/controllers/http_route_controller.go:681-696 | Only the first of the biggest entries changes, by the given difference |
| RouteWeights.AdjustWeightToSumTo100 | controller/controllers/http_route_controller.go:657-679 | The result is the rounded shares - for a sum of zero, whatever that division is converted to - with the rounding error taken off the first biggest |
| RouteWeights.EvenedSumsTo100 | controller/controllers/http_route_controller.go:669-679 | Whatever the shares, a sum of zero included, the result sums to exactly 100 |
| RouteWeights.AdjustedSumsTo100 | controller/controllers/http_route_controller.go:657-696 | The weights sum to exactly 100, all but one are their rounded share, and that one is off by at most half the count |
| RouteWeights.PercentagesAreKept | controller/controllers/http_route_controller.go:657-679 | Weights that sum to 100 are left as they are |
| RouteWeights.NoNegativeWeight | controller/controllers/http_route_controller.go:657-696 | With at most fifteen destinations no weight is negative |
| RouteWeights.MoreThanFifteenCanGoNegative | controller/controllers/http_route_controller.go:657-696 | For every count above fifteen there is a list of that length that leaves a weight of -1 |
| RouteWeights.NonNegativeIff | controller/controllers/http_route_controller.go:657-696 | No list of n destinations with a positive sum ends with a negative weight if and only if n is at most fifteen |
| RouteReconcile.RouteReconciler.SaveVirtualService | controller/controllers/http_route_controller.go:389-433 | Creates or rewrites one host's service by the copy listed at the start; fails exactly when the API server does not answer, the name is taken, or the service was written since that list |
| RouteReconcile.RouteReconciler.SaveAll | controller/controllers/http_route_controller.go:330-338 | Hosts are saved in some order; given that order a save fails exactly for want of an answer, or at a host whose service name an earlier host has written or a foreign service holds |
| RouteReconcile.RouteReconciler.CreateFilters | controller/controllers/http_route_controller.go:340-366 | Missing filters are created; two redirecting routes of one name always end in a conflict |
| RouteReconcile.RouteReconciler.DeleteFilters | controller/controllers/http_route_controller.go:369-375 | Filters no route asks for are deleted |
| RouteReconcile.RouteReconciler.DeleteOld | controller/controllers/http_route_controller.go:377-384 | Services listed with an unrouted host are deleted, whatever was written to them since |
| RouteReconcile.RouteReconciler.Run | controller/controllers/http_route_controller.go:296-387 | Without errors the services and filters converge and the order of hosts was unblocked; wherever it stops the state is a partial one; it fails only for want of an answer, at a blocked host, or at a conflict of filters; from a settled state nothing is created or deleted |
| RouteConvergence.EveryOrderPassesIff | controller/controllers/http_route_controller.go:330-338 | Every order of hosts goes through if and only if service names are distinct and none belongs to a foreign service |
| RouteConvergence.SomeOrderPassesIff | controller/controllers/http_route_controller.go:396-424 | Some order goes through if and only if no name belongs to a foreign service and of every two hosts that share a name one is served already just as it is to be |
| RouteConvergence.AllServedIff | controller/controllers/http_route_controller.go:296-387 | A run without errors serves every routed host if and only if their service names are distinct and none is held by a service of an unrouted host |
| RouteMeaning.ServiceNameMeans | controller/controllers/http_route_controller.go:390-390 | The service of a host is named "vs-" and the parts of the host joined by dashes, "wildcard" standing for a star |
| RouteMeaning.HostIsServed | controller/controllers/http_route_controller.go:296-433 | Without a clash of names a run without errors leaves every host some route names a service of that name, with that host alone and exactly the rules of its routes in serving order |
| RouteMeaning.OnlyNamedHosts | controller/controllers/http_route_controller.go:377-384 | And it leaves no managed service but those of hosts that some route names |
| RouteMeaning.FiltersMean | controller/controllers/http_route_controller.go:340-375 | After a run without errors Kalm's filters are exactly "https-redirect-" with the names of the redirecting routes; foreign filters are untouched |
| RouteConvergence.ConvergesToExact | controller/controllers/http_route_controller.go:296-387 | Under the naming scheme the outcome is one service per routed host and no other managed one, under that same condition |
| RouteConvergence.SecondRunHeals | controller/controllers/http_route_controller.go:377-384 | A host that lost its service to a clash has it back after a second run without errors |
| RouteConvergence.SecondRunIsIdle | controller/controllers/http_route_controller.go:296-387 | After a run without errors the state is settled, so a second run creates and deletes nothing |
| RouteConvergence.StoppedRunKeeps | controller/controllers/http_route_controller.go:296-387 | A run stopped at any call keeps the naming scheme, adds no clash and leaves foreign services alone |
| RouteConvergence.RerunReachesTheSame | controller/controllers/http_route_controller.go:296-387 | Stopping at any call and running again reaches the same service names, every host served, and the same filters |
| RouteConvergence.PlainHostsHaveDistinctNames | controller/controllers/http_route_controller.go:390-390 | Hosts without dash and star never share a service name |
| RouteConvergence.DashAndDotCollide | controller/controllers/http_route_controller.go:390-390 | A dash and a dot collide, and then some host is not served |
| SingleFlight.RefreshTable.GetRefreshTokenCond | api/auth_proxy/refresh.go:28-39 | The first caller for a token registers it and is its producer; later ones get the same registration |
| SingleFlight.RefreshTable.RemoveRefreshTokenCond | api/auth_proxy/refresh.go:41-53 | The delayed removal is the removal step of the machine |
| SingleFlight.RefreshTable.SetTokens | api/cmd/auth-proxy/main.go:322-324 | The three result fields end up as the reply has them |
| SingleFlight.RefreshTable.DoRefresh | api/cmd/auth-proxy/main.go:284-327 | The refresh redeems once; it succeeds exactly when the provider answered with an id token that was verified, and then the context holds that token, its text and the new refresh token; else the context holds the error that says which check failed, and no token |
| SingleFlight.RefreshRun | api/cmd/auth-proxy/main.go:284-327 | An undisturbed refresh is a run of the machine |
| SingleFlightRuns.EntryIffLive | api/auth_proxy/refresh.go:28-53 | In every interleaving a token of at least ten characters is in the table if and only if one registration of it is running or awaiting removal, a shorter one if and only if one is or has crashed; never more than one |
| SingleFlightRuns.OneFlightAtATime | api/cmd/auth-proxy/main.go:250-282 | At most one redemption per registration, and a new registration only after the earlier one was redeemed and removed |
| SingleFlightRuns.RemovalTakesItsOwn | api/auth_proxy/refresh.go:41-53 | A removal takes out its own registration's entry and nothing else |
| SingleFlightRuns.ResultIsSettled | api/cmd/auth-proxy/main.go:284-327 | What a producer has set never changes |
| SingleFlightRuns.ReadersGetTheReply | api/cmd/auth-proxy/main.go:260-281 | Once the producer ended every later reader finds exactly one of error and token, and the whole reply |
| SingleFlightRuns.EarlyReadIff | api/cmd/auth-proxy/main.go:319-324 | A reader that leaves its loop while fields are being written gets the reply exactly when no remaining field matters |
| SingleFlightRuns.ContextMeans | api/cmd/auth-proxy/main.go:284-327 | What a context holds at every moment of every interleaving: nothing, the id token, the id token and its text, all three, or the error alone |
| SingleFlightRuns.ShortTokenIsStuck | api/cmd/auth-proxy/main.go:250-254 | A token under ten characters is never redeemed and keeps its entry in every continuation |
| SingleFlightRuns.LeavesIffLoggable | api/cmd/auth-proxy/main.go:250-258 | A registered token can leave the table if and only if it has at least ten characters |
| AcmeIssuer.TrimPrefixOfWildcardDomains | controller/controllers/acmeserver_controller.go:438-454 | The trimmed domains, each once |
| AcmeIssuer.NeedRegister | controller/controllers/acmeserver_controller.go:394-411 | The domains to register are the wanted ones without a config, once per certificate |
| AcmeIssuer.AcmeReconciler.RegisterAcmeDns | controller/controllers/acmeserver_controller.go:247-277 | One registration per listed domain; a domain's config is the reply to its last registration |
| AcmeIssuer.AcmeReconciler.RegisterDomainsInAcmeServer | controller/controllers/acmeserver_controller.go:381-435 | What is registered and what is cleaned are the two differences between wanted and known domains |
| AcmeIssuer.UpdateConfigs | controller/controllers/acmeserver_controller.go:560-575 | The config keys become exactly the wanted domains, old credentials kept, new ones from the server, full domains set |
| AcmeIssuer.AcmeReconciler.UpdateStatusOfCerts | controller/controllers/acmeserver_controller.go:772-805 | Certificates are published one by one; a failure leaves a prefix published |
| AcmeIssuer.AcmeReconciler.ReconcileIssuer | controller/controllers/acmeserver_controller.go:519-590 | One pass leaves the issuer as it was or fully updated, and without errors every status published |
| AcmePasses.ExistingIssuerKeeps | controller/controllers/acmeserver_controller.go:559-580 | Keys are exactly the wanted domains, full domains are right, surviving credentials and subdomains are kept |
| AcmePasses.ExistingPassAgrees | controller/controllers/acmeserver_controller.go:788-797 | After a pass over an existing issuer every certificate's status names, for each of its domains, the full domain the issuer is configured with |
| AcmePasses.OldEntriesStay | controller/controllers/acmeserver_controller.go:788-797 | Status entries of other domains are left in place |
| AcmePasses.WantedMeans | controller/controllers/acmeserver_controller.go:394-454 | The issuer serves exactly the domains DNS01 certificates name, with or without "*." in front |
| AcmePasses.PublishingMeans | controller/controllers/acmeserver_controller.go:772-805 | Publishing changes nothing of a certificate but its challenges: each domain it names gets the configured subdomain under the base domain, other entries stay |
| AcmePasses.CreatedPassAgreesIff | controller/controllers/acmeserver_controller.go:549-558 | After the pass that creates the issuer all statuses agree with all configs if and only if, for each domain, the server's last reply has the full domain made of its own subdomain and the published base |
| AcmePasses.SecondPassIsIdle | controller/controllers/acmeserver_controller.go:519-590 | A second pass registers nothing, keeps all credentials, sets full domains, and is idle when those are right |
| AcmePasses.RegisteredOnceIff | controller/controllers/acmeserver_controller.go:397-411 | New domains are registered at least once, and exactly once just when no two certificates share one |
| PodResources.ResourceList.AddResourceList | api/resources/node.go:293-302 | Adding in any map order gives the sum by name |
| PodResources.ResourceList.MaxResourceList | api/resources/node.go:306-317 | Raising in any map order gives the maximum by name |
| PodResources.PodRequestsAndLimits | api/resources/node.go:266-290 | The pod's lists as the specification composes them |
| PodResources.GetPodsRequests | api/resources/node.go:221-237 | One entry per pod, in order, with that pod's requests |
| PodResources.GetPodsTotalRequestsAndLimits | api/resources/node.go:239-264 | The totals over all pods |
| PodResources.RequestMeaning | api/resources/node.go:266-290 | A request is the larger of the sum over the containers and the maximum over the init containers of what their requests say, plus overhead; listed exactly when mentioned |
| PodResources.LimitMeaning | api/resources/node.go:278-288 | A limit is the same of what their limits say, plus overhead only where it is not zero |
| PodResources.RequestsIgnoreLimits | api/resources/node.go:266-276 | Two pods that differ only in limits have the same requests |
| PodResources.TotalsAreSums | api/resources/node.go:221-264 | Totals equal the sums of the requests reported beside them and of the pods' limits, resource by resource |
| MetricHistory.MergeMetricHistories | api/resources/metric.go:29-60 | Both inputs are sorted in place and the result is their merge |
| MetricHistory.SortMetricHistory | api/resources/metric.go:62-66 | The array is rearranged in time order |
| MetricHistory.MergeTally | api/resources/metric.go:35-57 | At every timestamp the merge sums both inputs and has as many points as the fuller one |
| MetricHistory.MergeIsSorted | api/resources/metric.go:35-57 | A merge of sorted series is sorted |
| MetricHistory.MergeIsUniqueIff | api/resources/metric.go:35-57 | A merge has unique timestamps if and only if both inputs do |
| MetricHistory.FoldTally | api/resources/application.go:147-149 | Folding over services conserves every timestamp's sum |
| MetricHistory.AnyOrderSameSeries | api/resources/application.go:147-149 | With unique timestamps every order of folding gives the very same series |
| MetricHistory.OneResultIff | api/resources/metric.go:62-66 | The result for one series is settled if and only if no two different points share a timestamp |
| MetricHistory.DuplicatesComeEitherWay | api/resources/metric.go:62-66 | The least unsettled series: two points of one timestamp come out either way round |
| VolumeUpdates.GetStsTemplateVolMap | controller/api/v1alpha1/component_webhook.go:184-200 | The template volumes of a StatefulSet by claim name; none for other workloads |
| VolumeUpdates.TemplatesMean | controller/api/v1alpha1/component_webhook.go:184-200 | Which volumes the rule looks at: of a StatefulSet the last template volume of each claim name, and no volume of another kind or workload |
| VolumeUpdates.IsIdenticalVolMap | controller/api/v1alpha1/component_webhook.go:148-182 | Accepts exactly when names and sizes agree and no two given storage classes differ |
| VolumeUpdates.SameSizeSubset | controller/api/v1alpha1/component_webhook.go:148-158 | Equal size and one-way inclusion give equal key sets |
| VolumeUpdates.ValidateUpdate | controller/api/v1alpha1/component_webhook.go:112-146 | No error exactly when the update is acceptable |
| VolumeUpdates.AcceptedMeans | controller/api/v1alpha1/component_webhook.go:112-200 | An update to a StatefulSet passes if and only if no other check fails, both versions have template volumes of the same claim names, and those of one name agree in size and do not name two classes |
| VolumeUpdates.TemplatesNeverChange | controller/api/v1alpha1/component_webhook.go:112-200 | Over every run of accepted updates the names and sizes are the original ones, or there is no template at all once the workload type was changed |
| VolumeUpdates.ClassKeptIff | controller/api/v1alpha1/component_webhook.go:170-178 | For any pattern of which versions name a template's storage class: every accepted run of that pattern keeps the class if and only if no version between two that name it leaves it out |
| VolumeUpdates.NoGapKeepsClass | controller/api/v1alpha1/component_webhook.go:170-178 | Without such a gap every accepted run keeps the class |
| VolumeUpdates.GapLetsClassDrift | controller/api/v1alpha1/component_webhook.go:170-178 | Over any gap some accepted run changes the class |
| RecordFilter.FilterAuthorized | api/handler/filter.go:9-35 | The array is permuted so that exactly its first l records are authorised |
| RecordFilter.FrontIsSelection | api/handler/access_token.go:78-90 | The records returned are the authorised ones with their multiplicity |

## Left out

- Kubernetes, Istio and casbin clients: the API server is a map of objects; updates are checked against revisions in `RouteReconcile` and `VolumeCalls`. Casbin is reachability over memberships plus the matcher, with the role depth of ten, the loader's trimming and the cutting of long lines taken from the frontend's own casbin sources (`frontend/src/rbac/casbin/roleManager.ts`, `frontend/src/rbac/casbin/persist.ts`, `frontend/src/rbac/casbin/assertion.ts`); the Go library of that name is not part of this model and may refuse a permission line of too many fields, which is read here by its first four.
- Finalizers: a claim or volume is gone at the delete call, while Kubernetes keeps a claim some pod mounts and a bound volume until they are free; ReuseDeletesClaimIff, RequestDeletesClaimIff and DeletedWhileBoundElsewhere speak of what Kalm asks to delete.
- Stale informer caches: a read sees the API server's current objects.
- Calls that fail although the server carried them out, and a look-up that reports an existing object as missing.
- VolumeOwnRuns: says nothing of the PV controller, whose calls in `VolumeCalls` may delete and adopt in any order.
- LockProtects: stated over atomic passes, not over single calls, because a pass deletes the old claim, updates the volume and creates the new claim in separate calls.
- Some calls of `VolumeCalls` stand for two reads in a row (a claim and the pods that use it).
- A volume whose labels are a nil map: the write to it panics, which the model takes as the pass stopping there.
- U+0085, which Go trims and the frontend's loader does not, and the byte order mark, with which it is the other way round: the model trims as Go does.
- Quantities, timestamps below the second, and Go's byte strings: whole numbers, Unix seconds and sequences of characters.
- Policy lines with too few fields or an unknown key, which decide nothing here, and informer tombstones of type DeletedFinalStateUnknown.
- RuleIsReadAlikeIff: takes rules whose text holds no line break, because such a break splits the rule into several policies; what a break costs is part of TextIsLosslessIff.
- LoadedRule: speaks of one written line; a text is first cut at line breaks, which TextReads covers for rules that hold none.
- The template engine that writes namespace policies, beyond the lines it produces; names are taken to need no escaping.
- ExcerptDecidesAlike: takes the excerpted policies as a set, because their order plays no part in decisions; their text is the subject of FrontendAgrees.
- AdjustWeightToSumTo100: does not model floating-point rounding and 32-bit overflow, because exact integers carry the apportionment; what Go converts a division by zero to is a parameter.
- Destinations, timeouts, retries, mirroring, faults and CORS of a rule, which are copied from the route, and the merging of header and query conditions into maps; serving is proved for any reading of the conditions.
- Regular expressions in general: the method expression is read as the alternation of plain words it is.
- Run: the three lists at its start count as one call, because none changes anything; a write that leaves hosts and rules as they are is taken as no change, the labels, gateways and exports being those Kalm itself wrote; services and filters with Kalm's label outside the namespaces Kalm writes to are not modelled.
- ReadersGetTheReply: says nothing about waking up or memory visibility, because the producer writes its result without the condition's lock.
- The registration of a token whose provider call panics or never returns.
- An existing issuer without a DNS01 section, on which the code panics, and certificates changing between the two lists of one ACME pass.
- The eight series of an Istio history: each is merged by the same function, so one stands for all.
- Sorting: the library sort is replaced by insertion sort, and callers use only that the result is a sorted permutation.
- The checks ValidateUpdate shares with creation: their number of errors is a parameter.
- Field-copying reconcilers (SSO, protected endpoints, log system, gateways, operator, storage classes, registries), HTTP handlers, websockets, the rest of the frontend, JSON, cryptography and configuration templates.
