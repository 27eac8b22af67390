# Verification of the Kubernetes DNS manager

A Dafny model of the operator's reconciliation engines and of the string and record
transformations they rest on, with proofs of what they guarantee. `dafny verify dfyconfig.toml`
checks the whole project.

## What is modelled

- **Records** (`Text`, `Suffixes`, `Records`, `Admission`): the DNSRecord API type, its defaulting and
  validating webhook, conversion to and from resource records, and the public-suffix lookup with
  normal, wildcard and exception rules, for any rule list.
- **Provider form** (`Normaliser`, `ProviderForms`, `EntryReader`, `Spellings`): the libdns form of a
  record, an independent reader of it, and the normalisers used to compare it with what a provider
  reports, for every spelling of the report.
- **One pass** (`Provider`, `Controller`, `Effects`, `Convergence`, `Rewriting`, `Deletion`, `Witness`):
  `prov.Reconcile` and the DNSRecord controller's `Reconcile` as imperative classes, proved equal to
  pure functions, what a pass may touch whatever faults occur, what passes achieve over whole runs,
  and concrete objects to which the theorems apply.
- **The protocol** (`Protocol`, `Isolation`, `CleanRuns`, `Solo`): any number of objects, passes
  interleaved between single API and provider calls, users editing and deleting objects, other
  writers in the zones, failing calls, conflicting writes and crashes. Identifiers are never
  reissued. `Solo` shows that an undisturbed pass of the protocol is the pass of `Controller`.
- **Locks** (`Locks`): the per-key lock table under any number of concurrent calls, which lets
  passes begin and end for a key just as the protocol does.
- **Child records** (`Children`, `Rounds`, `DiffTheorems`, `Settling`, `Ingress`, `IngressRuns`,
  `Neighbours`): the three-way diff, its application to an API server with finalizers, versions and the
  operator's defaulting and validating webhooks, single and repeated passes of the Ingress
  controller, and several Ingresses side by side.
- **The engines together** (`EndToEnd`): from the host of an Ingress to its entry in the provider's
  zone, and from a host no longer wanted to the end of its record.
- **CoreDNS plugin** (`Zones`, `Routing`, `Index`): the record index kept by informer events, the
  rebuild of zones from it, and query routing.

Library functions outside the repository are either small explicit models (public suffixes,
`libdns.AbsoluteName`, label splitting, owner references, zone insertion, zone matching) or
function values in `Externals` about which nothing is assumed unless a lemma says so (IP and
record parsing and printing). The network, clocks and fault behaviour are parameters of a pass
(`Calls`, `look`) or steps of the protocol.

## Where the code does not do what one would expect

Each of these is kept as it is in the code, with the exact condition under which the expected
property holds.

- `removeFinalizer` removes only itself exactly for a singleton list. With something behind the
  controller's finalizer the list grows on every pass and the object never goes away; with
  something only before it, the other finalizer is dropped instead
  (`Controller.RemovalIsExact`, `Controller.RemovalEmpties`, `Deletion.ObjectGoes`).
- A deleted object whose spec does not convert, whose name has no registrable domain, or that
  another provider owns never goes away, even if its only finalizer is the controller's: every pass
  fails before it gets there (`Deletion.GoallessIsStuck`, `Deletion.ObjectGoes`). The webhook admits
  such records, and the controller gives them the finalizer (`Witness.StuckObjects`).
- A live active record that starts without a matching entry and finds its place free stops being
  rewritten exactly when its provider form survives the normalisers; otherwise every pass replaces
  the entry (`Normaliser.EchoStableExactly`, `Rewriting.QuiescentExactly`,
  `Rewriting.ReachableExactly`).
- An entry is orphaned by an odd append answer, by a crash or a lost status write after an append,
  and, while the entry of the object is still there, by a pass that moves on to another identifier
  or removes the last finalizer, by an edit that empties the finalizers of an object marked for
  deletion, and by the deletion of an object without finalizers; by nothing else
  (`Isolation.OrphansByLeaksOnly`). A pass misses a live entry exactly when the provider says "not
  found" or the entry lies in another zone than the spec (`Isolation.MissesOwnEntry`). Child updates
  carry no finalizers, which opens such a window
  (`CleanRuns.UpdateWithoutFinalizersThenDeleteLeaks`).
- `ToRR` and the webhook try variants in different orders (`Records.AdmissionImpliesConversion`).
- A relative name that ends in the text of the zone is taken for an absolute one
  (`Normaliser.RelativeForm`); a first TXT chunk that is a single space is lost
  (`ProviderForms.TxtRoundTrip`); behind the numbers of MX and SRV data, "@" is taken for a name and
  not for the zone (`Spellings.ApexBehindNumber`).
- A raw record of a type other than A, AAAA, CNAME, MX, NS, SRV and TXT is sent to the provider
  without its data (`EntryReader.EntryReadsBack`).
- If the listing of a zone fails for another reason than a missing zone, an object without an entry
  goes on as if the zone were empty (`Effects.FailedListing`).
- Ingress hosts that differ only in dots and dashes share record names. An Ingress can ever be
  settled exactly when such hosts are one host up to case and the closing dot
  (`Ingress.IngressCanBeSettled`); a host in several rules makes creates fail, but repeated passes
  settle it (`IngressRuns.IngressSettles`).
- Two Ingresses may name their records alike (`Neighbours.OwnersThatCollide`). They never touch each
  other's records (`Neighbours.IngressesAreApart`), so the later one fails on every pass.
- An Ingress host without a registrable domain and closing dot, such as one of a single label, is
  refused by the validating webhook, and every pass fails (`IngressRuns.HostIsAdmitted`,
  `IngressRuns.OneLabelIsRefused`).
- A pass over the children succeeds and leaves no difference exactly when the records wanted under
  one name agree and none is written twice, no wanted name is held by a foreign record, no spec to be
  written is invalid, no surplus child has finalizers and no child that needs an update is being
  deleted (`DiffTheorems.DiffApplies`). The diff repairs owner references only on its local copies,
  so a repaired reference need not be stored.
- Deleting or changing one of two objects that render alike removes the record of the other, and
  changes to or from unconvertible objects and tombstones are missed (`Index.AgreementKept`).
- With two SOA records in a zone, the one inserted last wins; a record is in its zone after every
  rebuild exactly when it has no such rival (`Zones.AlwaysFiledExactly`).

## Model

| member | source | states |
|---|---|---|
| `Suffixes.RootedHasNoDomain` | api/v1alpha1/dnsrecord_webhook.go:109-119 | a name that already ends in a dot has no registrable domain, for every rule list, so closing a name with a dot happens at most once |
| `Suffixes.UnlabelledHasNoDomain` | api/v1alpha1/dnsrecord_webhook.go:109-119 | neither the empty name nor one that starts with a dot has a registrable domain |
| `Suffixes.DomainIsSuffix` | api/v1alpha1/dnsrecord_webhook.go:111-117 | a registrable domain is a textual suffix of the lower-cased name: the suffix test in `enforceFqdn` never fails |
| `Suffixes.ZoneOfShape` | pkg/provider/libdns/libdns.go:65-75 | every zone the operator works in is non-empty text closed by one dot, with exactly the trailing labels of the lower-cased owner name from the registrable domain on |
| `Suffixes.LongestZone` | pkg/coredns/k8s_dns/provider.go:124-130 | if the registrable domain of one name encloses another name, it is no longer than that name's own registrable domain, with wildcard and exception rules included |
| `Suffixes.ZoneByRule` | pkg/provider/libdns/libdns.go:66-75 | given the rule that prevails, the zone of a name is its public suffix (the rule's labels, one more for a wildcard, one less for an exception, one without a rule) and one label more, and there is none for a name no longer than that |
| `Records.EnforceFqdnStable` | api/v1alpha1/dnsrecord_webhook.go:109-119 | the result of `enforceFqdn` is settled, a name is left alone exactly when it is lower-case and has no registrable domain, dotted names stay dotted |
| `Records.DNSRecord.Default` | api/v1alpha1/dnsrecord_webhook.go:52-107 | the in-place defaulting leaves exactly the defaulted spec |
| `Records.DefaultingIsStable` | api/v1alpha1/dnsrecord_webhook.go:52-119 | defaulting twice is defaulting once, and an admitted spec stays admitted after defaulting |
| `Records.AdmissionImpliesConversion` | pkg/record/record.go:116-190 | an admitted spec converts to the variant that was validated if and only if A is set, or CNAME is unset, or none of TXT, SRV and MX is set |
| `Records.AdmittedWithoutConversion` | api/v1alpha1/dnsrecord_webhook.go:144-169 | a concrete spec that is admitted but does not convert |
| `Admission.ErrorsExactly` | api/v1alpha1/dnsrecord_webhook.go:144-226 | validation reports a field if and only if it is invalid: an undotted name or target, an unparsed address, a missing text, a missing or unparsed raw text |
| `Admission.AdmittedExactly` | api/v1alpha1/dnsrecord_webhook.go:144-226 | a spec is admitted if and only if the variant looked at has a dotted name and a parsed address, a dotted target or a text, or the raw text parses |
| `Admission.ImportIsAdmitted` | pkg/record/record.go:38-114 | an importable record with dotted names is admitted once imported, before and after defaulting |
| `Admission.DefaultingTouchesOne` | api/v1alpha1/dnsrecord_webhook.go:52-107 | defaulting fills only unset fields, closes or lower-cases names, and leaves the other variants and the raw text alone |
| `Records.ImportRoundTrip` | pkg/record/record.go:38-114 | importing a record, defaulting it and converting it back gives the same record if and only if it is importable: non-zero class, TTL, weight and preference, settled names, non-empty target or text, IP and raw text that read back |
| `Normaliser.InZoneFixed` | pkg/provider/libdns/libdns.go:193-201 | `Fqdn` always yields a dotted name and leaves exactly the dotted names alone |
| `Normaliser.RelativeForm` | pkg/provider/libdns/libdns.go:193-201 | a relative name becomes the absolute name if and only if its text does not end in the text of the zone |
| `Normaliser.NameNormalForm` | pkg/provider/libdns/libdns.go:193-205 | `Fqdn` is idempotent and maps dotted, undotted, apex and (exactly when understood) relative spellings of a name to one form |
| `Normaliser.UnquoteFixed` | pkg/provider/libdns/libdns.go:207-209 | `Unquote` leaves alone exactly the texts without a quote or any Unicode white space at either end |
| `Normaliser.EchoStableExactly` | pkg/provider/libdns/libdns.go:128-135 | an entry reported back as it was sent compares equal if and only if its name is dotted and its value is plain text, or a dotted name without leading white space or quote, depending on its type |
| `Spellings.SpelledExactly` | pkg/provider/libdns/libdns.go:193-205 | a name is normalised to an absolute name if and only if it is one of its spellings: dotted, undotted within the zone, empty or "@" for the zone, or relative |
| `Spellings.NumberedSpelling` | pkg/provider/libdns/libdns.go:188-189 | behind the numbers of MX and SRV data a name other than "@" keeps its spellings |
| `Spellings.ApexBehindNumber` | pkg/provider/libdns/libdns.go:188-189 | "@" there is taken for a name in the zone |
| `Spellings.ReportIsRecognised` | pkg/provider/libdns/libdns.go:183-191 | every report of an entry, its name and host targets in any spelling and its text plain or quoted in chunks, is normalised to the entry itself |
| `Spellings.ReportIsKept` | pkg/provider/libdns/libdns.go:128-135 | a pass that finds its own entry so reported keeps it, and one that keeps an entry has found one of its identifier, type, TTL and name |
| `Spellings.TakenExactly` | pkg/provider/libdns/libdns.go:106-112 | a place is taken if and only if some entry spells the wanted name and has the wanted type and the very value |
| `ProviderForms.NormalisedPresentation` | pkg/provider/libdns/libdns.go:183-191 | for every non-empty list of quote-free chunks, normalising the quoted presentation form gives the concatenation of the chunks after the leading single-space ones |
| `ProviderForms.TxtRoundTrip` | pkg/provider/libdns/libdns.go:177-190 | the normalised presentation form is the text the operator compares with if and only if the first chunk is not a single space |
| `ProviderForms.TtlFits` | pkg/provider/libdns/libdns.go:162 | the TTL in nanoseconds fits a signed 64-bit duration for every 32-bit TTL |
| `ProviderForms.DataReadsBack` | pkg/provider/libdns/libdns.go:171-176 | read field by field, the value of an MX record gives preference and host, that of an SRV record priority, weight, port and target, in this order |
| `ProviderForms.FaithfulProviderForm` | pkg/provider/libdns/libdns.go:157-181 | equal provider forms come from records with equal type, owner, TTL and data (equal concatenation for TXT) |
| `EntryReader.EntryReadsBack` | pkg/provider/libdns/libdns.go:157-181 | read by the type mnemonics of the RFCs, the entry sent for an A, AAAA, CNAME, MX, NS, SRV or TXT record gives back that record with owner, TTL in seconds and data (TXT data joined, class IN); entries of other types carry no data |
| `EntryReader.ConcatAppends` | pkg/provider/libdns/libdns.go:177-178 | TXT data is sent as its chunks in order with nothing between them |
| `ProviderForms.AdmittedIsRecognised` | pkg/provider/libdns/libdns.go:128-135 | for admitted specs, exactly which ones are recognised when the provider reports them back: all SRV and MX, and the others by their text |
| `Provider.FindTruthful` | pkg/provider/libdns/libdns.go:82-88 | in a true listing of a zone the search finds the entry at the identifier exactly when it exists in that zone |
| `Provider.Lookup` | pkg/provider/libdns/libdns.go:82-88 | the loop finds the first entry with the identifier |
| `Provider.AlreadyThere` | pkg/provider/libdns/libdns.go:106-112 | the loop reports an entry of the same name, type and value if and only if there is one |
| `Provider.Prov.Pursue` | pkg/provider/libdns/libdns.go:81-155 | the in-place code after the listing has the effect of the plan on status, zone and result, for every answer of the provider |
| `Provider.Prov.Reconcile` | pkg/provider/libdns/libdns.go:54-155 | the in-place provider pass computes `ProviderPass` for every record, zone and fault |
| `Effects.ProviderPassEffect` | pkg/provider/libdns/libdns.go:54-155 | whatever faults occur, a failed pass leaves the status alone; a successful one clears identifier and provider of an unwanted object, and for a wanted one keeps everything or records the appended identifier and its own name, with the wanted entry in the goal's zone; all other entries are spared |
| `Effects.OldEntryGoes` | pkg/provider/libdns/libdns.go:90-144 | with a true listing, a successful pass that clears the status or moves to another identifier has removed the old entry from the zone |
| `Effects.FailedListing` | pkg/provider/libdns/libdns.go:76-80 | a listing that fails otherwise than "not found" stops exactly the passes of objects with an identifier |
| `Effects.OthersKeepOff` | pkg/provider/libdns/libdns.go:56-60 | a provider that does not own the record has no goal and changes nothing |
| `Controller.RemoveFinalizer` | controllers/dnsrecord_controller.go:230-243 | the loop finds the finalizer if it is there and leaves the list of `Removed` |
| `Controller.RemovalIsExact` | controllers/dnsrecord_controller.go:235-239 | exactly the finalizer is removed, and it is gone, if and only if the list is a singleton |
| `Controller.RemovalGrows` | controllers/dnsrecord_controller.go:239 | with anything behind the finalizer, n removals leave a list of more than n entries headed by it |
| `Controller.RemovalEmpties` | controllers/dnsrecord_controller.go:230-243 | repeated removals ever empty the list if and only if the finalizer comes last |
| `Controller.DNSRecordReconciler.Reconcile` | controllers/dnsrecord_controller.go:77-169 | the in-place controller pass computes `Pass`, reports its event, and leaves every other object alone |
| `Controller.DNSRecordReconciler.Settle` | controllers/dnsrecord_controller.go:100-169 | what follows a successful provider pass writes exactly what `Conclude` says |
| `Effects.PassHasEffect` | controllers/dnsrecord_controller.go:77-169 | every pass, with whatever answers, changes the spec at most to its defaults, the finalizers by its own at most, identifier and provider as the provider pass says, the record to its rendering, the active flag only to what the verification returned, and removes an object only under its single finalizer |
| `Effects.UnverifiedChangesNothing` | controllers/dnsrecord_controller.go:147-150 | without an answer of the verification server, a pass over a quiescent object changes nothing |
| `Effects.EventMeans` | controllers/dnsrecord_controller.go:88-169 | a warning means an unconvertible object or a verification that has just turned false, a deletion a marked object with a clear status, a requeue or success an unwritten object whose verification disagrees or agrees |
| `Effects.OwnershipStays` | pkg/provider/libdns/libdns.go:123-124 | whatever faults occur, an object with an identifier keeps the provider that issued it |
| `Effects.QuiescentIsOwned` | pkg/provider/libdns/libdns.go:56-60 | over every run from an empty status, a quiescent active object is owned by its provider, has its entry, and no pass of another provider changes anything |
| `Convergence.WritingPassAdvances` | controllers/dnsrecord_controller.go:118-169 | a faultless pass over a live object whose entry is recognised keeps it so and, if it writes anything, lowers the rank |
| `Convergence.PassMakesProgress` | controllers/dnsrecord_controller.go:118-169 | at a positive rank, a faultless pass writes if and only if it has the finalizer to add, or the object has a goal and is inactive, has its own entry in the zone, or finds no entry of the wanted name, type and value there |
| `Convergence.AtMostThreeWrites` | controllers/dnsrecord_controller.go:118-169 | over every run of passes with arbitrary other activity in between, at most three passes write, and none once the rank is zero |
| `Convergence.PassesReachQuiescence` | controllers/dnsrecord_controller.go:118-169 | over every such run whose passes find their place free, each pass lowers the rank until it is zero, so quiescence is reached after at most three passes |
| `Convergence.QuiescentPass` | controllers/dnsrecord_controller.go:147-169 | at rank zero a pass changes nothing, and reports success if and only if the verification agrees with the spec |
| `Convergence.FaultlessExists` | pkg/provider/libdns/libdns.go:76-80 | in every situation there are answers of the provider without faults, so the theorems about faultless passes are never void |
| `Rewriting.ErrantFlaps` | pkg/provider/libdns/libdns.go:103-154 | whatever is at its identifier, a live active object whose entry is not recognised and whose place is free has, after a pass, that entry as it was sent, under a new identifier |
| `Rewriting.UnrecognisedEchoFlaps` | pkg/provider/libdns/libdns.go:128-154 | from then on every pass replaces the entry by an identical one under a new identifier |
| `Rewriting.NeverQuiescent` | pkg/provider/libdns/libdns.go:103-154 | over every run, such an object never comes nearer to quiescence than rank two, and every pass that finds its place free writes |
| `Rewriting.QuiescentExactly` | pkg/provider/libdns/libdns.go:103-154 | over every run of a live active object that starts without a match and finds its place free, three passes reach rank zero if and only if the entry it wants is recognised when it comes back |
| `Rewriting.ReachableExactly` | pkg/provider/libdns/libdns.go:103-154 | from such an object some run reaches rank zero if and only if its entry is recognised |
| `Convergence.SuccessMeansDesired` | controllers/dnsrecord_controller.go:147-169 | a pass that reports success wrote nothing and found the finalizer, the rendered record, agreeing active flags, and a matching entry at the identifier, or an empty status if inactive |
| `Deletion.DeletionPass` | controllers/dnsrecord_controller.go:94-116 | a faultless deletion pass removes exactly the object's own entry, clears the status first, and touches the finalizers only when it is clear |
| `Deletion.DeletionRun` | controllers/dnsrecord_controller.go:94-116 | any number of further deletion passes leave the zones alone and repeat the finalizer removal |
| `Deletion.DeletionEnds` | controllers/dnsrecord_controller.go:108-116 | the object disappears if and only if the controller's finalizer is the only one left |
| `Deletion.GoallessIsStuck` | controllers/dnsrecord_controller.go:88-92 | without a goal, a deletion pass changes nothing, whatever the provider answers |
| `Deletion.ObjectGoes` | controllers/dnsrecord_controller.go:77-116 | from any object marked for deletion under the finalizer, some run of faultless passes ends with the object gone if and only if its spec converts to a record with a registrable domain, no other provider owns it, and the controller's finalizer is the last in the list |
| `Deletion.GoneInThree` | controllers/dnsrecord_controller.go:94-116 | then no run of faultless passes leaves the object in place for more than two passes |
| `Witness.SteadyObjects` | controllers/dnsrecord_controller.go:118-169 | a concrete new TXT object to which the convergence theorem applies at full rank |
| `Witness.FlappingObjects` | pkg/provider/libdns/libdns.go:128-154 | for every kind of white space and the quote, a concrete TXT object whose text starts with it and that flaps forever |
| `Witness.DeletedObjects` | controllers/dnsrecord_controller.go:94-116 | a concrete object marked for deletion that disappears with the next pass |
| `Witness.StuckObjects` | pkg/provider/libdns/libdns.go:66-73 | a TXT record with a one-label name is admitted, gets the finalizer, and once deleted never goes away, for all rules, libraries and providers |
| `Protocol.VictimIsOwn` | pkg/provider/libdns/libdns.go:83-97 | whatever the listing says, a pass only ever deletes the entry at the record's own identifier |
| `Protocol.StepKeepsInv` | controllers/dnsrecord_controller.go:77-169 | every step of every participant keeps identifiers with the object they were issued to and snapshots consistent with their version |
| `Isolation.ObjectsAreIsolated` | pkg/provider/libdns/libdns.go:82-153 | after any interleaving, no two objects hold one identifier, and the next controller step removes or changes at most the entry at its own identifier, issued to its own object; foreign entries are spared |
| `Isolation.HeldByAny` | pkg/provider/libdns/libdns.go:115-125 | an entry is held by its own object exactly when it is held by any object |
| `Isolation.MissesOwnEntry` | pkg/provider/libdns/libdns.go:76-88 | a pass with a live entry misses it if and only if the listing says "not found" or the entry lies in another zone than the goal |
| `Isolation.OrphansByLeaksOnly` | controllers/dnsrecord_controller.go:94-145 | a step leaves a new orphan entry if and only if the guard of one of the leaks listed above holds before it, whatever faults occur |
| `Isolation.LeakFreeRunsHaveNoOrphans` | controllers/dnsrecord_controller.go:94-145 | a run without leaking steps creates no orphan |
| `CleanRuns.CleanStepsDoNotLeak` | controllers/dnsrecord_controller.go:94-145 | a step of a well-behaved environment does not leak and keeps plans, claims and zones in line with the objects |
| `CleanRuns.NoOrphans` | controllers/dnsrecord_controller.go:94-145 | after any clean run, an appended entry exists only while its object exists under its finalizer, with the entry in the zone of its spec, and records it or has a pass about to record it |
| `CleanRuns.OneEntryEach` | controllers/dnsrecord_controller.go:94-145 | after any clean run, no object has two appended entries in the zones |
| `CleanRuns.UpdateWithoutFinalizersThenDeleteLeaks` | controllers/child_records.go:77-82 | in every state, an update without finalizers followed by deletion orphans the object's entry |
| `Solo.PassIsARun` | controllers/dnsrecord_controller.go:77-169 | an undisturbed pass is a run of the protocol that ends with the object and zones computed by `Pass`, for all provider answers |
| `Locks.LockTable.MutexFor` | controllers/dnsrecord_controller.go:69-74 | the mutex of a key is created once, never replaced and never shared between keys |
| `Locks.StepKeepsInv` | controllers/dnsrecord_controller.go:65-76 | every step keeps the lock discipline and no step replaces a key's mutex |
| `Locks.MutualExclusion` | controllers/dnsrecord_controller.go:65-76 | for any number of calls, at most one is inside the pass of a key, and calls that wait for a key's mutex wait only for calls of the same key |
| `Locks.OnePassPerKey` | controllers/dnsrecord_controller.go:65-76 | in every run, a pass begins only for a key without one in progress and ends only its own, as the protocol of interleaved passes demands |
| `Locks.SomeCallCanGoOn` | controllers/dnsrecord_controller.go:65-76 | there is no deadlock: while a call is in progress, some call in progress can go on |
| `Children.ChildRecords` | controllers/child_records.go:32-58 | the loop collects exactly the adopted records, or fails on the first one that another controller owns |
| `Children.DiffRecords` | controllers/child_records.go:87-119 | the nested loops compute the wanted-but-missing, the differing (with the listed version) and the surplus records |
| `Children.Cluster.ReconcileChildRecords` | controllers/child_records.go:60-85 | deletes, creates and updates in this order up to the first refused write (a name taken, a version changed, a spec the webhook rejects), and leaves exactly the store so far, refused or not |
| `Rounds.AdoptedAt` | controllers/child_records.go:39-56 | name by name, the child list holds exactly the records that are controlled or adoptable |
| `Rounds.TakenIsControlled` | controllers/child_records.go:40-55 | every record taken as a child is controlled by the owner and differs from the stored one at most in its owner references |
| `Neighbours.AdoptedExactly` | controllers/child_records.go:39-56 | a record is taken if and only if its controller has the owner's uid, or it is annotated with the owner's name and no other object controls it; it is an error if and only if it is so annotated and another does |
| `Neighbours.UpsertKeepsOthers` | controllers/child_records.go:50 | a repaired record keeps its references to other objects |
| `Rounds.ReconciledAt` | controllers/child_records.go:60-119 | for any store, any listing, however old, and any webhooks, reconciliation succeeds if and only if no wanted name is held by a record that is not a child, no child to be updated is gone or has changed version, no spec to be written is rejected and no name is written twice; then it gives every name its due result |
| `Rounds.ReconciledAdmitted` | api/v1alpha1/dnsrecord_webhook.go:126-136 | successful or not, reconciliation stores only specs that the webhooks admit |
| `DiffTheorems.DiffApplies` | controllers/child_records.go:32-119 | reconciliation succeeds and the next difference is empty if and only if the records wanted under one name agree and no name is written twice, no wanted name is held by a foreign record, no spec to be written is rejected, no surplus child has finalizers and no child needing an update is being deleted |
| `DiffTheorems.NoDifferenceMeans` | controllers/child_records.go:87-119 | there is no difference if and only if every wanted record is a child of its name with its spec, annotations and owner references, and every child is wanted |
| `DiffTheorems.CanBeSettled` | controllers/child_records.go:87-119 | some children leave no difference if and only if the records wanted under one name agree |
| `DiffTheorems.ChildrenAsWanted` | controllers/child_records.go:60-119 | with no write refused and nothing in the way, every wanted name has the wanted spec and annotations, surplus children are gone, and all other records are unchanged |
| `DiffTheorems.SurplusWithFinalizers` | controllers/child_records.go:63-70 | a store with one surplus child under a finalizer, to which the diff theorem applies and in which the deletion is in the way |
| `Settling.PassPartly` | controllers/child_records.go:60-85 | a pass, even one that fails half-way, gives every name its due result or leaves a wanted name as it was |
| `Settling.StatusIsSpared` | controllers/child_records.go:60-85 | a pass leaves the status of a stored child to the record controller, gives a new record none, and puts the wanted finalizers on an updated one |
| `Settling.PassesLeaveLess` | controllers/child_records.go:60-119 | from a workable setting, every pass, successful or not, keeps it workable and strictly lowers what is left to do until nothing is |
| `Settling.PassesSettle` | controllers/child_records.go:60-119 | one pass more than there are wanted records leaves no difference, even if names are wanted twice |
| `Ingress.BuildWanted` | controllers/ingress_controller.go:89-123 | the loops build one record per non-empty host and non-empty address, in order |
| `Ingress.DesiredCount` | controllers/ingress_controller.go:96-123 | the list has hosts times addresses entries |
| `Ingress.DesiredHas` | controllers/ingress_controller.go:96-123 | the list has the record of every host and every address |
| `Ingress.RecordAsksForHost` | controllers/ingress_controller.go:101-117 | converted, that record is the active A record of the closed lower-case host with that address and the Ingress's TTL or the default |
| `Ingress.NamesAgree` | controllers/child_records.go:28-30 | two record names of one owner agree if and only if the replaced hosts and the indices agree |
| `Ingress.PlainHostsAreApart` | controllers/child_records.go:28-30 | pairwise distinct hosts free of dashes and wildcards stay distinct in record names |
| `Ingress.HostsThatCollide` | controllers/child_records.go:28-30 | two distinct hosts with the same record names |
| `Ingress.CollidingHostsNeverSettle` | controllers/child_records.go:87-119 | an Ingress with these hosts and an address has a difference with whatever children it has |
| `Ingress.DesiredIsWanted` | controllers/ingress_controller.go:101-122 | every record of the list is controlled by the Ingress, already defaulted and without finalizers, as the diff theorem demands |
| `Ingress.IngressCanBeSettled` | controllers/ingress_controller.go:101-122 | some children leave no difference if and only if there is no address or hosts with equal record names are one host once lower-cased and closed; record names are distinct if and only if there is no address or the replaced hosts are |
| `IngressRuns.HostIsAdmitted` | api/v1alpha1/dnsrecord_webhook.go:171-180 | the webhooks admit the record of a host and an address if and only if the host has a registrable domain or a closing dot and the address parses |
| `IngressRuns.OneLabelIsRefused` | api/v1alpha1/dnsrecord_webhook.go:109-119 | for every rule list, a host of one label has neither |
| `IngressRuns.ReconcileIngress` | controllers/ingress_controller.go:61-124 | the pass fails without a write on a record of another controller, deletes the children of an ignored Ingress, and otherwise reconciles them with the built list |
| `IngressRuns.IngressPass` | controllers/ingress_controller.go:61-124 | with a current listing of admitted records, a pass succeeds and the next has nothing to do if and only if hosts with equal record names agree, every host can be closed and every address parsed, no name is written twice, no wanted name is held by a foreign record and no deletion is in the way |
| `IngressRuns.EveryHostGetsItsRecords` | controllers/ingress_controller.go:96-124 | after such a pass, every non-empty host has for every non-empty address a stored, admitted record that converts to its active A record |
| `IngressRuns.IngressSettles` | controllers/ingress_controller.go:61-124 | without the demand that no name is written twice, repeated passes leave nothing to do, at the latest with one pass more than the Ingress asks for records |
| `IngressRuns.FirstPass` | controllers/ingress_controller.go:61-124 | in an empty namespace the first pass settles the Ingress if and only if every host can be closed, every address parsed, and there is no address or the replaced hosts are distinct |
| `Neighbours.OwnIsTaken` | controllers/ingress_controller.go:101-121 | a record built for an Ingress is taken by it, with its owner reference or without any, and then has it |
| `Neighbours.ForeignIsSpared` | controllers/child_records.go:60-85 | a stored record that is not a child is unchanged, whatever is wanted and whichever write is refused |
| `Neighbours.IngressesAreApart` | controllers/ingress_controller.go:61-124 | for every store, neither a pass nor the removal of an ignored Ingress's children changes a record built for an Ingress of another name and uid |
| `Neighbours.IgnoredLosesChildren` | controllers/ingress_controller.go:69-79 | a record built for an ignored Ingress is deleted, or marked if it has finalizers |
| `Neighbours.NameShape` | controllers/child_records.go:28-30 | a record is named after its Ingress, its kind, the replaced host and the index, in this order |
| `Neighbours.ReplacedAppends` | controllers/child_records.go:29 | in names dots become dashes, stars become "wildcard", and all else stays in place |
| `Neighbours.OwnersThatCollide` | controllers/child_records.go:28-30 | two Ingresses, one named as the other names a host, share record names |
| `Neighbours.NonEmptyAppends` | controllers/ingress_controller.go:90-99 | empty hosts and addresses are skipped and the order of the others is kept |
| `EndToEnd.HostReachesZone` | controllers/ingress_controller.go:96-124 | after a pass that settles an Ingress, three passes over the record of a host and an address that find their place free leave the finalizer on it and the A entry of that host, address and TTL in the zone of its registrable domain, at the identifier the record knows |
| `EndToEnd.SurplusGoes` | controllers/child_records.go:63-70 | a surplus child under the finalizer is marked by the pass, and then goes, at the latest with the third pass over it, if and only if the provider can work with its spec and the finalizer is the last |
| `EndToEnd.SettledOnceGone` | controllers/child_records.go:60-119 | once the surplus children are gone, the next difference is empty |
| `Zones.Rebuild` | pkg/coredns/k8s_dns/provider.go:118-140 | in any iteration order, the zones partition the usable records, and names are the zones without repeats |
| `Zones.CompleteAll` | pkg/coredns/k8s_dns/provider.go:141-176 | in any iteration order, every zone is completed and none is added |
| `Zones.CompletedApex` | pkg/coredns/k8s_dns/provider.go:141-176 | a completed zone has an SOA and NS records, keeps all filed records, and gains only the generated SOA, NS and address record where none was defined |
| `Zones.GeneratedSoa` | pkg/coredns/k8s_dns/provider.go:141-154 | a missing SOA record is generated with the configured TTL, name server, hostmaster and the fixed serial and timers, and a defined one is kept |
| `Zones.GeneratedNs` | pkg/coredns/k8s_dns/provider.go:142-174 | a missing NS record is generated for the name server of that SOA record, which lies in the zone, with its address record if the address is known |
| `Zones.EffectiveSettings` | pkg/coredns/k8s_dns/provider.go:107-115 | unset settings become hostmaster, one hour and dns, set ones stay |
| `Zones.ServedAt` | pkg/coredns/k8s_dns/provider.go:118-176 | apex NS records and an SOA record without rival are served at the apex in place of generated ones, delegations and all other supported records below it |
| `Zones.ZoneProvider.Sync` | pkg/coredns/k8s_dns/provider.go:101-178 | `sync` re-establishes that the served zones are the completed partition of the index |
| `Zones.RecordsArePartitioned` | pkg/coredns/k8s_dns/provider.go:118-140 | every record lies in no zone but its own, and lies there if it is supported and, should it be an SOA record, has no rival in that zone |
| `Zones.OrderDoesNotMatter` | pkg/coredns/k8s_dns/provider.go:118-140 | any two rebuilds have the same zones with the same records, up to the order of names and NS records and the SOA record of a zone with several |
| `Zones.TwoSoasAreAmbiguous` | pkg/coredns/k8s_dns/provider.go:137-139 | with two SOA records in a zone either outcome is a valid rebuild |
| `Zones.AlwaysFiledExactly` | pkg/coredns/k8s_dns/provider.go:118-140 | a supported record is in its zone after every rebuild if and only if it has no rival SOA record there |
| `Routing.Matches` | pkg/coredns/k8s_dns/crds.go:66-71 | the loop over the zone names picks the longest one that encloses the query name, none if none does |
| `Routing.LongestWins` | pkg/coredns/k8s_dns/crds.go:66-71 | an enclosing zone longer than all other enclosing zones is the one chosen, in any order of names |
| `Routing.RoutedWhereFiled` | pkg/coredns/k8s_dns/crds.go:66-76 | a query for the name of a filed record is routed to the very zone the record was filed in, however zones nest |
| `Index.Handlers.AddFunc` | pkg/coredns/k8s_dns/provider.go:186-203 | an appearing object enters the index if it converts and is active, and the zones follow |
| `Index.Handlers.UpdateFunc` | pkg/coredns/k8s_dns/provider.go:204-228 | a change replaces the old rendering if both versions convert, and the zones follow |
| `Index.Handlers.DeleteFunc` | pkg/coredns/k8s_dns/provider.go:229-242 | a deletion removes the rendering if the object converts, and the zones follow |
| `Index.AgreementKept` | pkg/coredns/k8s_dns/provider.go:185-243 | from agreement, an event leaves the index equal to the renderings of the live active objects if and only if it is not one of the named breaking events |
| `Index.IndexedUnlessOff` | pkg/coredns/k8s_dns/provider.go:186-228 | a convertible object is indexed on appearing or changing unless its active flag is off, and its old rendering leaves |
| `Index.SoundAlways` | pkg/coredns/k8s_dns/provider.go:185-243 | after any history over convertible objects, every entry is the record of a live active object |
| `Index.AgreesAlways` | pkg/coredns/k8s_dns/provider.go:185-243 | after any unbroken history the index is exactly the renderings of the live active objects |
| `Index.ApartIsUnbroken` | pkg/coredns/k8s_dns/provider.go:185-243 | histories over convertible objects that always render pairwise differently are unbroken |
| `Index.TwinIsLost` | pkg/coredns/k8s_dns/provider.go:229-242 | with two objects of one rendering, deleting one removes the record of the other |
| `Index.TombstoneIsMissed` | pkg/coredns/k8s_dns/provider.go:229-242 | a deletion delivered as a tombstone leaves the record in the index |
| `Index.UnconvertibleIsMissed` | pkg/coredns/k8s_dns/provider.go:204-228 | an object that stops converting leaves its record behind even when deleted, and one that starts converting is not indexed |
| `Index.ActiveObjectsAreServed` | pkg/coredns/k8s_dns/provider.go:101-243 | with a sound index in agreement, the record of a live active object is in the served zone that a query for its name is routed to |
| `Index.HistoriesAreServed` | pkg/coredns/k8s_dns/provider.go:101-243 | the same after any unbroken history of events over convertible objects, from the empty index on |

## Left out

- Stale informer reads: a pass reads the object as the API server has it at that moment; writes are checked against the version read.
- `controllers/service_controller.go`: the single-host case of the Ingress builder, easy members only.
- The parsing of the TTL annotation of the Ingress controller: the TTL is a parameter, and so is whether the Ingress is ignored.
- The DNS verification query, event recording and logging: the answer of the verification server is a parameter of a pass.
- The reply that `ServeDNS` builds from the zone's answer, zone expiry and truncation: easy case analysis around library calls.
- The error values that `sync` and the webhook return: only which records are skipped and which fields are invalid are modelled.
- Zone internals: a zone is an optional SOA, apex NS records and a set of other records; `file.Zone` lower-casing record data is not modelled.
- Concrete provider clients, the serialising client wrapper, command-line tools, start-up and registration: wiring.
- Escaped dots in names and non-ASCII case folding: names are split at every dot and lower-cased in ASCII.
- The object name that `FromRR` derives from a record: only the spec is modelled.
- Locks.LockTable.MutexFor: models the table under its mutex; blocking and interleaving are in the step system of the same module.
- ProviderForms.FaithfulProviderForm: the record class is not part of the provider form, so it is not recovered; printing of IP addresses is assumed injective on the two records compared.
- Index.ActiveObjectsAreServed: an object is covered if the live active objects that render as it does convert to the same record, since the index keeps one record per rendering.
- Children.Cluster.ReconcileChildRecords: writes are refused for taken names, changed versions and rejected specs; failures of the API server itself and its rules for object names are not modelled.
- The webhook on the DNSRecord controller's own writes: it sends back the defaulted spec it read, which is admitted whenever the stored one was (`Records.DefaultingIsStable`), so these writes are taken as accepted.
- EndToEnd.HostReachesZone: assumes that a printed address has no white space or quote at its ends and no gap, since printing is a library function.
