# The monitor and the editor core, verified

This project models parts of go-whim in Dafny and proves them: a virtual machine monitor's memory
layout, its vCPUs' protocol, its system-call filter, its arm64 backend and its store, and the
editor's own printf and its parallel loop.  `dafny verify dfyconfig.toml` checks all of it.

- **Memory** (`Bits`, `Memory`, `PageFormat`, `Spans`, `PageTree`, `PageCount`, `PageWalk`,
  `TableBuilder`, `CommandLine`, `GuestLayout`, `Plan`, `Boot`).  The page-table builder is a class that
  writes little-endian words into a byte array, as the monitor does.  What it writes is read by a
  hardware walk over those bytes (section 4.5 of the Intel SDM, volume 3A; section D8.3 of the Arm
  Architecture Reference Manual), and the walk is proved equal to the linear scan of the layout's spans.
  Between the two is a tree of tables, kept as ghost state: which node is in which page, and what each
  of its 512 entries must be.
- **vCPUs** (`Smp`, `SmpSafety`, `SmpShutdown`, `SmpCalls`, `Parker`).  Each vCPU's thread is a program
  counter, and a step is what it does between two points where another's can be seen: one critical section,
  channel operation, atomic or system call.  A run is any sequence of steps and of time passing.  What a call
  comes to (a wake, a park, a start, an exit) is said of the events of a run, in `SmpCalls`.
- **printf** (`FormatIso`, `FormatCut`, `FormatTypes`, `FormatNumber`, `FormatField`, `FormatStandard`,
  `FormatShort`, `FormatArgs`, `FormatOutput`, `FormatLayout`, `FormatConvert`, `Format`, `FormatGrammar`,
  `FormatMeets`).  How a format is cut into conversions is one function, which both passes are proved to
  follow.  What a format writes is a
  function of the arguments at the places it names, without a buffer or a list to go back and forth in;
  the two passes over a real buffer and a real list refine it.  `FormatIso` is the standard by itself, with
  nothing of the program's, and `FormatMeets` has the two agree from the text of a format on.
- **The filter** (`Seccomp`), **the arm64 backend** (`Arm64Shim`), **the store** (`RefText`, `Store`) and
  **the parallel loop** (`Chunks`).

What turned out not to hold is stated with what does:

- The Go guest's plan (`planGo`) and `boot` do not check that the image ends within the guest's RAM;
  `Plan.GoOverflows` is an image for which a span then ends before it begins, and `Plan.GoSorted` says
  exactly when the spans are in order.
- Nor do they check that it leaves room there for the vCPUs' fault stacks: `Plan.GoStackInText` is an image
  whose plan is in order and whose boot vCPU has its stack in text that it cannot write.
  `Plan.GoStacksApart` says exactly when the stacks are above the image, and `Plan.GoStacksExact` exactly
  when they are read-write.
- A segment's end and a slot's size are sums in 64 bits that nothing checks: `Plan.SegmentExact` says
  exactly when a segment's span is one, `Plan.CWraps` is an image whose slot wraps to below the doorbell,
  and `Plan.CSorted` says exactly when the C guest's spans are in order.
- Nor is a segment's address held to what is translated: `Boot.GoOutOfReach` is a Go image that is accepted
  with a page where the processor's space ends, which it then does not find, and `Boot.BootGo` says exactly
  when every segment is found.
- The page tables take an address for its remainder by 2^48 on amd64 and 2^39 on arm64
  (`PageFormat.TranslateWraps`), and the builder takes any span.  `Boot.GoAliases` is an image, and
  `PageWalk.NoTables` says of any spans, that no tables are right for an address above and for the one that it
  is taken for; by `Boot.IndexedOnly` a Go image has tables that are right only if its segments with
  permissions end below, and by `Boot.BootGo` one that ends there has them.
- A guest that the watchdog ends may leave no end to report, so that its result is that of an exit with 0:
  `SmpShutdown.NoEnd` is such a run for every number of vCPUs, and `SmpShutdown.EndExact` says that every
  run has an end exactly when there is no watchdog.
- A conversion whose width is a star's least int, and whose number is empty, is not padded:
  `FormatStandard.MeetsStandard` says that this is the only case, and `FormatShort.ShortExact` has it with `h`.
- printf tests an `h` number's sign, and whether it is zero, before it narrows it.  `FormatShort.ShortExact`
  says exactly when the output is still the standard's, `FormatShort.ShortDiffers` when it is not.
- A width, precision or position of ten times the limit (1048576) or more is not read whole: its last digits
  are left, and cut as what follows it.  `FormatGrammar.UnsignedExact` says exactly when.
- The filter's jump past the ioctl requests has 8 bits: `Seccomp.FilterExact` says exactly when a longer
  list does harm, and `Seccomp.OneTooMany` is one that does.
- A ref whose write fails in its last byte is set all the same (`RefText.TornRef`).

## Model

| member | source | states |
|---|---|---|
| `GuestLayout.Layout.BuildTables` | vmm/layout.go:213-286 | on a zeroed table area, for either format: it succeeds exactly when the tables that the spans need are at most the 496 pages; then the tables map every address that their indices tell apart, and the processor's walk from the returned root every one that it translates, to itself, writable, executable (and on arm64 device) exactly as the spans say of its page, and finds nothing where they say nothing; no byte outside the table area changes |
| `PageWalk.WalkFinds` | vmm/layout.go:160-168 | the refinement itself: in memory that holds the finished tree, the hardware walk of any address equals the linear scan of the spans |
| `PageFormat.TranslateWraps` | vmm/layout.go:227-245 | whatever the tables, an address is looked up as its remainder by what their indices tell apart (2^48 bytes on amd64, 2^39 on arm64) |
| `PageWalk.NoTables` | vmm/layout.go:227-245 | of spans that map an address above that, no tables at all are right both for it and for the one that it is taken for |
| `PageWalk.TranslateFinds` | vmm/layout.go:227-245 | from any table on an address's path, at any height, the walk finds what the spans say |
| `PageFormat.TableReads` | vmm/setup_amd64.go:37 | a table entry, of either ISA, is decoded by the processor as the next table, with write and execute passed on |
| `PageFormat.LeafReads` | vmm/setup_amd64.go:38-50 | a leaf, of either ISA and either size, is decoded as memory at its address with exactly its permissions, for every one of them |
| `PageFormat.Arm64LeafReads` | vmm/setup_arm64.go:35-52 | the same of an arm64 leaf, as the walk decodes one: its kind, its address, and whether it can be written, executed and is a device |
| `PageFormat.Arm64Fields` | vmm/setup_arm64.go:35-52 | every field of an arm64 leaf: valid, page or block, the memory attribute, read-only, inner shareable unless a device, the access flag, not nG, the address, and never executable at EL0, at EL1 only if the permissions say so |
| `PageTree.LinkImage` | vmm/layout.go:234-241 | a new table entered in its parent keeps every table's content and no two nodes share a page |
| `PageTree.FinishUniform` | vmm/layout.go:265-271 | one 2 MiB leaf (or nothing, when nothing is mapped) finishes a block of one permission, and no other |
| `PageTree.LinkPages` | vmm/layout.go:272-276 | a table of pages entered for a mixed block leaves that table alone to be filled |
| `PageTree.FillOne` | vmm/layout.go:277-281 | a page's leaf fills its own entry of the table and leaves the others as they were |
| `TableBuilder.Builder.Descend` | vmm/layout.go:229-245 | the table of 2 MiB entries for a block, made with those on the way when missing, is the tree's; it fails only if the tables needed are too many |
| `TableBuilder.Builder.IsUniform` | vmm/layout.go:253-260 | the loop answers whether all 512 pages of a block have the permission of its first |
| `TableBuilder.Builder.MapBlock` | vmm/layout.go:249-283 | a block not seen before is finished, by a leaf or by a table of pages, and the tree stays whole |
| `TableBuilder.Builder.MapSpan` | vmm/layout.go:247-283 | the loop over a span's blocks finishes just those not seen |
| `TableBuilder.Builder.Alloc` | vmm/layout.go:214-222 | pages of the area one after another, and none when all 496 are used |
| `PageCount.NeededFew` | vmm/layout.go:214-222 | below 4 GiB the tables needed are at most 6 + 2 n for n spans: every mixed block has a span's boundary in its interior |
| `PageCount.MixedHasBoundary` | vmm/layout.go:253-260 | a block of more than one permission has a span's boundary inside |
| `PageCount.AllThere` | vmm/layout.go:247-284 | when every touched block is finished, the tree's tables are exactly those needed |
| `Spans.PermAtPage` | vmm/layout.go:160-168 | of page-aligned spans, every address has its page's permission |
| `Spans.BlocksExact` | vmm/layout.go:247-249 | the blocks of a span are exactly those with a byte of it |
| `GuestLayout.Layout.WriteArgs` | vmm/layout.go:185-200 | it succeeds exactly when pointers and strings fit the argument area; then every pointer and string is where it must be, a null pointer follows, and no byte outside the area changes |
| `CommandLine.ReadsBack` | vmm/layout.go:183-200 | argv read from memory as C pointers and C strings is the arguments, in order, for arguments without NULs |
| `CommandLine.ReadArgs` | vmm/layout.go:183-200 | for any arguments: each reads back up to its first NUL |
| `CommandLine.StringsApart` | vmm/layout.go:187-195 | no string overlaps another or the pointers, and all end inside the area |
| `Plan.LoadImage` | vmm/layout.go:93-127 | a file is taken exactly when it is a 64-bit one of the machine, has something to load, every such segment is page-aligned, at or above the base and physical as virtual, and its symbols give whim_vectors a value; its end is the furthest of the segments' ends, each in 64 bits |
| `Plan.LoadsJoin` | vmm/layout.go:95-103 | what is loaded of two lists of headers is what is loaded of each, in their order |
| `Plan.LoadsOne` | vmm/layout.go:95-103 | and of one header that header, if it is PT_LOAD and not empty |
| `Plan.ValueLast` | vmm/layout.go:114-122 | a symbol's value is that of the last of its name, and zero when there is none |
| `Plan.SegmentExact` | vmm/layout.go:104-108 | of a segment that the loader takes, the span begins before it ends exactly when address plus size is at most 2^64 less a page: nothing checks that the sum does not wrap |
| `Plan.PlanC` | vmm/layout.go:132-158 | the loop lays out the planned spans, stacks, heap and size |
| `Plan.PlanGo` | vmm/tamago.go:56-82 | the loop lays out the Go guest's planned spans above its lowest segment |
| `Plan.CSorted` | vmm/layout.go:132-158 | for every image of ascending segments and every vCPU count, the spans are sorted and disjoint exactly when the image and the slot end below the doorbell, in 64-bit arithmetic; then they are page-aligned |
| `Plan.CWraps` | vmm/tamago.go:86-89 | an image at the top of the address space, which the loader takes and whose slot is below the doorbell, as boot asks, since its end wraps: its spans are out of order |
| `Plan.CSafe` | vmm/layout.go:76-78 | the null page, the table area and the guard page are unmapped; the vCPUs' fault stacks are pairwise disjoint, above the stack top, and in a read-write span |
| `Plan.GoSorted` | vmm/tamago.go:74-81 | the Go guest's spans are sorted exactly when the image ends within its RAM and that below the doorbell |
| `Plan.GoOverflows` | vmm/tamago.go:75-89 | an image that the loader and the boot accept, of 3.25 GiB of zeros, whose Go plan has a span that ends before it begins: neither checks the image against the RAM |
| `Plan.GoPermAt` | vmm/tamago.go:56-82 | in every Go slot, in order or not: above the arguments, an address of a segment has READ, WRITE and EXEC each exactly when that segment's PF_R, PF_W and PF_X is set, and never DEVICE; another of the RAM above the image is read-write, and no other up to the doorbell is mapped |
| `Plan.GoGives` | vmm/tamago.go:56-82 | the whole of a Go slot below the doorbell, address by address: on a segment's pages what the header's flags say, beside them the arguments and the RAM read-write, the doorbell a writable device, and nothing anywhere else |
| `Plan.GoStacksApart` | vmm/tamago.go:53-55 | every byte of every vCPU's fault stack is above the image exactly when the image leaves room for the stacks, a sum of its first segment, its end and the vCPUs |
| `Plan.GoStacksExact` | vmm/tamago.go:76-80 | every byte of every fault stack is read-write exactly when the image's own bytes among them are in segments that are; with room for the stacks they are |
| `Plan.GoStackInText` | vmm/tamago.go:74-80 | an image that fills all but a page of the RAM: its plan is in order and passes the doorbell check, and the boot vCPU's stack is read-execute |
| `Plan.GoSafe` | vmm/tamago.go:76-80 | of every Go image: null page and tables unmapped, fault stacks pairwise disjoint and inside the slot; and read-write when there is room for them |
| `Plan.SegmentPerms` | vmm/layout.go:135-147 | in a sorted plan every segment's bytes have READ, WRITE and EXEC each exactly when its PF_R, PF_W and PF_X is set |
| `Plan.CGives` | vmm/layout.go:132-158 | the whole of a C slot below the doorbell, address by address: on a segment's pages what the header's flags say, beside them the arguments, the stacks and the heap read-write, the doorbell a writable device, and nothing anywhere else |
| `Plan.PlanFits` | vmm/tamago.go:86-89 | a planned slot below the doorbell is in the space that the tables index, and of up to 241 segments never needs more tables than the area holds (a Go guest's, if the image ends within its RAM) |
| `Boot.BootC` | vmm/layout.go:132-286 | plan, doorbell check and tables together, for every image of ascending segments in the space that the tables index and every vCPU count: they succeed exactly when the slot is below the doorbell and its tables fit, as those of up to 241 segments always do; then what the processor finds is stated for every address that it translates: on a segment's pages memory that can be written exactly when PF_W is set and executed exactly when PF_X is, or nothing when none of the three flags is; beside them the arguments, the stacks and the heap, writable and not executable, the doorbell as a writable device, and nothing else, so that the null page, the table area and the guard are unmapped |
| `Boot.BootGo` | vmm/tamago.go:53-97 | the same of the Go guest's plan, for every such image, whether or not it leaves room for the stacks or ends within the RAM: of every address that the processor translates, a segment's pages by the header's flags, the arguments, the RAM above the image and the doorbell, and nothing else; the fault stacks are writable and not executable when there is room for them; and every segment is found whole exactly when each that has a flag set ends in the space that the processor translates |
| `Boot.GoOutOfReach` | vmm/tamago.go:86-91 | an image with a page where the processor's space ends (2^47 on amd64, 2^32 on arm64): the loader, the plan, the doorbell check and the tables take it, and that page is not found |
| `Boot.GoAliases` | vmm/layout.go:229-245 | an image with a page where the tables' indices begin again: the loader, the plan and the doorbell check take it, and no tables give both that page and the one that it is taken for their own |
| `Boot.IndexedOnly` | vmm/tamago.go:86-91 | any tables that are as a Go guest's spans say up to its image's end are of an image whose segments with a flag set end in what the indices tell apart; of an image that ends there BootGo's are |
| `Memory.PutWord` | vmm/layout.go:240 | a 64-bit store changes its eight bytes, which then read as the word, and no others |
| `Memory.LittleEndian` | vmm/layout.go:240 | the word that they read as has the lowest address's byte as its lowest, each next one 256 times as much |
| `Bits.BitAt` | vmm/setup_amd64.go:38-50 | each bit of an or, an and and an and-not is that of the two numbers' bits |
| `SmpSafety.RunningCounts` | vmm/smp.go:79-93 | in every run of several vCPUs, until it ends: running is the number of vCPUs counted in that are neither parked nor in or waiting for a Host call; and while it is not zero and no resume is under way, no vCPU is parked until woken |
| `SmpSafety.ParksEnd` | vmm/smp.go:141-183 | in every reachable state in which a vCPU runs the guest, every vCPU blocked in its park either has a timeout no later than the limit from now, or has a wake not yet taken, although it read whether its wait is limited before it released the lock |
| `SmpSafety.OneInHost` | vmm/smp.go:209-231 | in every reachable state, the end of the run included, one vCPU at most holds the Host, and it is the one that the channel says |
| `SmpSafety.StepKeeps` | vmm/smp.go:64-245 | every step of every vCPU keeps the invariant (locks, starts, parks, the count) |
| `SmpSafety.ParkBeginKeeps` | vmm/smp.go:141-147 | counting out and choosing the park's kind in one critical section keeps it |
| `SmpSafety.ParkCheckKeeps` | vmm/smp.go:149-155 | reading whether the wait is limited, and setting its limit, keeps it |
| `SmpSafety.ParkWaitKeeps` | vmm/smp.go:156-160 | a wait ended by its wake or by its time keeps it |
| `SmpSafety.ParkWokeKeeps` | vmm/smp.go:161-172 | the three checks after a wait keep it |
| `SmpSafety.ParkLateKeeps` | vmm/smp.go:172-180 | a limit that passes while no vCPU runs the guest makes the park one until woken, and keeps it |
| `SmpSafety.ResumeKeeps` | vmm/smp.go:191-198 | counting in keeps it; the first to be counted in keeps the lock for the loop |
| `SmpSafety.ResumingKeeps` | vmm/smp.go:199-205 | each step of the loop that limits and wakes the vCPUs parked until woken keeps it |
| `SmpSafety.StartKeeps` | vmm/smp.go:85-88 | CPUStart's swap gives a vCPU one starter, and keeps it |
| `SmpSafety.StartCountKeeps` | vmm/smp.go:91-93 | the count of a vCPU being started keeps it |
| `SmpSafety.LockHostKeeps` | vmm/smp.go:209-216 | counting out for a Host call, of several vCPUs, keeps it |
| `SmpSafety.LeaveHostKeeps` | vmm/smp.go:226-231 | leaving the Host keeps it |
| `SmpSafety.HaltingKeeps` | vmm/vmm.go:307-315 | each of halt's four steps for each vCPU keeps it |
| `SmpShutdown.HaltedEnds` | vmm/vmm.go:348-422 | once halt has completed, in every continuation of every run the vCPUs take at most a bounded number of steps, which the state gives: every loop ends, whether in the guest, parked, at the Host or not started |
| `SmpShutdown.StepFalls` | vmm/vmm.go:392-422 | after halt every step of every vCPU makes the measure smaller |
| `SmpShutdown.NoDeadlock` | vmm/smp.go:235-245 | once the run has ended some vCPU can take a step until every loop has ended, although one that exits holds the Host and waits for the others, and the watchdog may be the one that halts them |
| `SmpShutdown.RunOver` | vmm/vmm.go:325-345 | a run that has ended and in which no vCPU can take a step is over: every loop has ended, with an end to report if the watchdog has not ended the guest |
| `SmpShutdown.FirstEnd` | vmm/vmm.go:318-321 | an end once recorded is the one reported, in every continuation |
| `SmpShutdown.EndExact` | vmm/vmm.go:318-345 | of any number of vCPUs: every run that is over, each loop ended, has an end to report exactly when the machine has no watchdog, which is in its configuration |
| `SmpShutdown.NoEnd` | vmm/vmm.go:659-684 | for every number of vCPUs a run that the watchdog ends while the boot vCPU asks for the Host: every loop ends, and no end is recorded |
| `SmpSafety.WatchKeeps` | vmm/vmm.go:676-678 | each step of the watchdog, its flag and its own halt, keeps the invariant |
| `SmpShutdown.StepShuts` | hv/kvm_linux.go:317-333 | every step keeps that what halt gave a vCPU (the wake, the cancel flag, immediate_exit, the signal) it still has or has acted on |
| `SmpShutdown.HaltingDelivered` | vmm/vmm.go:307-315 | halt's own steps give each vCPU the next of the four |
| `SmpShutdown.OwnDelivered` | hv/kvm_linux.go:346-361 | a vCPU's own step loses none: the cancel flag is taken only on the way to the loop's end |
| `SmpCalls.WakeGives` | vmm/smp.go:69-78 | CPUWake of a vCPU that there is gives that one the token and no other, moves no other vCPU, and the caller goes on; of none it gives nothing, of -1 it goes on to the loop |
| `SmpCalls.WakesAll` | vmm/smp.go:117-128 | when the loop of CPUWake(-1) is over, whatever happened meanwhile, every vCPU but the caller has had the token |
| `SmpCalls.WakeKept` | vmm/smp.go:117-131 | in every continuation a token given before a park or in it is still there, or a wait of that vCPU has been ended with it |
| `SmpCalls.WokenLeaves` | vmm/smp.go:160-186 | a wait ended with the token leaves the park at once, for the guest, or for the loop's end when the run has ended |
| `SmpCalls.WaitEnds` | vmm/smp.go:149-182 | a wait can end with the token exactly when it is there, and without it exactly when the deadline has passed or the limit of a limited park has |
| `SmpCalls.TokenGiven` | vmm/smp.go:117-205 | after any event a vCPU has the token exactly when the event gave it one (a wake of it, of all but the waker, of those parked until woken when the first is counted in, or halt's), or it had it and no wait of its was ended with it |
| `SmpCalls.ParkAsks` | vmm/smp.go:133-140 | a park of ns nanoseconds has the time of the call and ns as its deadline, one of a negative number none |
| `SmpCalls.ParkKind` | vmm/smp.go:141-147 | in every run of several vCPUs, until it ends: a park begins as one until woken exactly when no other vCPU is counted in, and as a limited one otherwise |
| `SmpCalls.LimitOnce` | vmm/smp.go:148-155 | its limit is set once, when it is first found to be limited, and to the machine's from then; no event changes it after |
| `SmpCalls.ParkLasts` | vmm/smp.go:141-186 | in every continuation a park goes on, with its deadline, until its vCPU has been woken, the deadline has passed, the machine's limit has since it began, or the run has ended |
| `SmpCalls.Starts` | vmm/smp.go:79-95 | CPUStart of a vCPU not started counts it in and sends it its start: it enters the guest, and so does the caller |
| `SmpCalls.StartRefused` | vmm/smp.go:80-87 | of none, of the boot vCPU or of one started before it changes nothing |
| `SmpCalls.HostReturns` | vmm/smp.go:209-231 | a vCPU that has the Host to itself gets it, comes back to the guest counted in, and leaves the Host free |
| `SmpCalls.AloneCounts` | vmm/smp.go:207-231 | in every run of one vCPU, until it ends: running is 0 while it is parked and 1 otherwise, at the Host too |
| `SmpCalls.CancelOnce` | hv/kvm_linux.go:317-361 | a cancel in a run that has not ended costs a vCPU one exit: it is in the guest again, its flags clear |
| `SmpCalls.ExitBegins` | vmm/vmm.go:581-585 | the guest's exit of a code starts an end with that code, in 32 bits |
| `SmpCalls.ExitCarried` | vmm/vmm.go:318-388 | every step on the way to the loop's end keeps that code, and the last records it as the run's end if there is none yet |
| `SmpCalls.ExitCountsAll` | vmm/smp.go:233-245 | in every reachable state of several vCPUs, one past the wait of an exit, or an exit on record, has every loop but one ended |
| `SmpCalls.KilledFails` | vmm/vmm.go:411-417 | a vCPU that the watchdog made exit ends the run with a fault, if it has no other end |
| `Parker.NoLostWake` | vmm/park_linux.go:27-31 | in every run of one waiter and any number of wakers: if the waiter sleeps while the word is 1, some waker is between its swap and its FUTEX_WAKE |
| `Parker.WakeEndsPark` | vmm/park_linux.go:34-49 | a park in which the token is set takes at most three more steps of its own, and has the token until it returns |
| `Parker.ParkMoves` | vmm/park_linux.go:27-49 | and is never stuck: a step of its own or a waker's FUTEX_WAKE can be taken, its sleep having a time or not |
| `Parker.TokenKept` | vmm/park_linux.go:26-31 | a wake given outside a park is kept until a park takes it |
| `Parker.WakesSpent` | vmm/park_linux.go:26-49 | in every run no more parks are ended by a wake than wakes were given, a token that no park has had counted in |
| `Parker.Refines` | vmm/park_linux.go:26-49 | every step is, of the token that the vCPUs' model has, a wake, a park ended by it, a park ended by its time, or nothing |
| `Format.VimSnprintf` | editor/format.go:668-1184 | a format that the first pass refuses writes nothing and is 0; of any other, whatever the buffer's size: the buffer holds the first min(L, str_m - 1) bytes of the unbounded output and a NUL, no byte outside its str_m is written, the result is L in 32 bits and does not depend on str_m; it panics exactly when an argument is missing or of another type |
| `Format.Emit` | editor/format.go:685-1173 | the second pass, over any accepted format and any arguments, writes what the format says of the arguments at the places it names |
| `Format.EmitDirective` | editor/format.go:707-1173 | one conversion ends where the first pass found it to end, and writes its text |
| `Format.EmitSpec` | editor/format.go:826-1094 | the specifier reads the argument named, or the next, and converts that one |
| `Format.ReadStar` | editor/format.go:758-777 | a width or precision '*' reads the argument named, or the next |
| `Format.AcceptedFits` | editor/format.go:446-452 | in an accepted format either no conversion names an argument, or none takes one that it does not name, and each it names has a type |
| `FormatTypes.ParseFmtTypes` | editor/format.go:435-629 | the first pass accepts exactly the formats whose conversions are well formed, name all their arguments or none, use each as one type, and leave none unused |
| `FormatTypes.ParseDirective` | editor/format.go:466-619 | one conversion is refused exactly when it is malformed, mixes, or names an argument as another type; else it ends where it is cut |
| `FormatTypes.AdjustTypes` | editor/format.go:355-398 | a use of an argument is refused exactly when its number is 0 or its type is not the one it had |
| `FormatTypes.CollectExact` | editor/format.go:355-398 | the uses of a format are all taken exactly when any two of one argument are of one type, and the types collected are then those of the uses |
| `FormatTypes.KindsTell` | editor/format.go:254-315 | two conversions are of one type exactly when their arguments are of one kind: signedness and rank of an integer, a character, a string or a pointer, told from specifier and modifier |
| `FormatTypes.OneEach` | editor/format.go:582-629 | every type that an accepted format collects is one that takes exactly one argument |
| `FormatTypes.NamesAll` | editor/format.go:623-628 | an accepted format that names arguments names every one from the first to the last |
| `FormatTypes.NamedInside` | editor/format.go:361-371 | every argument that a conversion names has a collected type |
| `FormatMeets.FormatsMeet` | editor/format.go:685-1173 | printf against the standard, from the text: a format written as any texts and any conversions d, i, u, o, x, X, b, B, c and s with flags, widths, precisions, stars, n$ and l or ll is accepted (if it names no argument) and renders to the texts and to what section 7.23.6.1 of ISO/IEC 9899:2024 says of each conversion and the argument it names, with that section's bases, digits, signs and padding written out apart from the program |
| `FormatMeets.ConvertMeets` | editor/format.go:707-1173 | one conversion, wherever it is in a format: what it writes, how many arguments it takes and where it ends |
| `FormatMeets.WrittenAccepted` | editor/format.go:435-629 | a format so written in which no conversion names an argument is accepted by the first pass |
| `FormatMeets.CellsFit` | editor/format.go:888-903 | %S takes characters while the precision has room for their cells, and stops only at the text's end or before a character that has none |
| `FormatMeets.CellsPadded` | editor/format.go:880-903 | and is padded to the width in cells, not in bytes |
| `FormatMeets.PointerWrites` | editor/format.go:912-917 | %p is 0x and the address's digits, of no address too |
| `FormatMeets.TakesReads` | editor/format.go:826-1094 | the first pass gives a specifier a type exactly when the second reads an argument for it, a star apart |
| `FormatMeets.OtherWrites` | editor/format.go:1081-1094 | a specifier that is none writes itself |
| `FormatGrammar.CutWritten` | editor/format.go:707-850 | a conversion written from its parts is cut into those parts, wherever it is: position, flags, width, precision, modifier and specifier |
| `FormatCut.GetUnsignedInt` | editor/format.go:413-430 | the loop reads what the cut of a format says is the number there |
| `FormatGrammar.UnsignedExact` | editor/format.go:413-430 | a number is read to its last digit exactly when it is below ten times the limit, and its value is then the lesser of the two |
| `FormatArgs.Reader.SkipToArg` | editor/format.go:632-666 | of an accepted format, back or on, the list comes to the argument asked for, or panics exactly when it has not so many; the internal error is not reached |
| `FormatArgs.Reader.Read` | editor/format.go:632-666 | a read for argument k yields args[k-1], and the list's index is arg_cur again |
| `FormatOutput.Output.Copy` | editor/format.go:694-703 | a write of which what does not fit is only counted: the buffer shows the beginning of all that was written |
| `FormatOutput.Output.Finish` | editor/format.go:1175-1181 | the NUL after the text, or in the last byte |
| `FormatLayout.EmitField` | editor/format.go:1096-1172 | the writes of a field come to its padding, prefix, zeros and body |
| `FormatLayout.AssembledNumber` | editor/format.go:1064-1079 | of a number those are its layout: zeros of the precision or of the width between prefix and digits |
| `FormatConvert.BuildNumber` | editor/format.go:906-1062 | the local buffer holds sign, prefix and digits, and the zeros' place is after the sign or prefix |
| `FormatConvert.ReadNumber` | editor/format.go:918-979 | the va_arg of each modifier: the sign tested, and the 64 bits written |
| `FormatConvert.TakeBits` | editor/format.go:1015-1030 | the binary digits, filled from the buffer's end |
| `FormatConvert.MeasureCells` | editor/format.go:888-903 | the characters of %S for whose cells the precision has room |
| `FormatNumber.ReadsBack` | editor/format.go:200-233 | the digits parse back to the number, in every base |
| `FormatNumber.DigitsNumeral` | editor/format.go:190-233 | they are the standard's: 0 to 9 and then a to f, or A to F, the highest first |
| `FormatNumber.SignedText` | editor/format.go:205-207 | of every signed 64-bit number, its minimum included, the text is its sign and its magnitude's digits |
| `FormatNumber.At22Digits` | editor/format.go:201 | a 64-bit number has at most 22 digits in the bases from 8 to 16, so 24 suffice with a sign and a NUL |
| `FormatNumber.OnlyDigits` | editor/format.go:208-222 | no leading zero but of zero, and nothing but digits |
| `FormatNumber.FmtNum` | editor/format.go:200-233 | the loops write sign, digits and a NUL, and no other byte |
| `FormatStandard.MeetsStandard` | editor/format.go:984-1079 | d, u, o, x, X, b and B without h write exactly the field that section 7.23.6.1 of ISO/IEC 9899:2024 asks for, decimal, octal, hexadecimal or binary, with every flag, width and precision and for every value; of the width of a star whose argument is the least int, exactly when the number is not empty |
| `FormatStandard.ValueExact` | editor/format.go:918-979 | the value that is converted is the argument, less a multiple of its type's number of values, in the type's range |
| `FormatStandard.StylesOrdinary` | editor/format.go:740-822 | those are all the styles: every conversion's width is from 0 up to 2^31, or the least int's to the left, and its precision is within the limit |
| `FormatShort.ShortExact` | editor/format.go:931-1003 | with h they do exactly when the tests of the number as read come to the same as of the number as narrowed, a predicate of the style and the two values; of the width of a star whose argument is the least int, and that number is not empty |
| `FormatShort.ShortDiffers` | editor/format.go:935-940 | one for which they do not: %.0hd of 65536 writes 0, the standard nothing |
| `Seccomp.Filter` | vmm/seccomp_linux.go:56-71 | the program's verdict on every call is kill for another machine's, allow for a listed call or an ioctl of a listed request, deny otherwise, for all lists of at most 127 requests, and in general exactly when the requests past the jump do no harm; the kernel takes it when it is not too long |
| `Seccomp.FilterExact` | vmm/seccomp_linux.go:66 | exactly when: the jump past the requests has 8 bits, and the requests it leaves out must be numbers of calls let go anyway |
| `Seccomp.Loads` | vmm/seccomp_linux.go:34-36 | of a call laid out as the kernel's struct seccomp_data, the three offsets are its number, its machine and the low word of its second argument |
| `Seccomp.OneTooMany` | vmm/seccomp_linux.go:66 | with 128 requests a call whose number is a request's is let go |
| `Seccomp.RunsTo` | vmm/seccomp_linux.go:56-71 | the interpreter run of the program, for every pair of lists and every call |
| `Seccomp.RunPairs` | vmm/seccomp_linux.go:63-69 | a list's pairs, wherever they are in a program, let its numbers go and pass the others on |
| `Seccomp.ProgramLoadable` | vmm/seccomp_linux.go:56-71 | every jump is forward and inside, every load is of a word of the call, and the last instruction returns |
| `Arm64Shim.Drive` | hv/kvm_linux_arm64.go:137-240 | for every sequence of runs and of gets and sets of PC and X0, the vCPU on KVM shows the framework's PC and goes on from the framework's address; X0 too where the bytes that a store wrote are X0's |
| `Arm64Shim.VCpu.VCPURun` | hv/kvm_linux_arm64.go:137-161 | a run goes on from where the framework's would, whatever was set while a store was pending, though KVM adds 4 |
| `Arm64Shim.VCpu.BeforeRun` | hv/kvm_linux_arm64.go:137-157 | KVM's PC is put so that what it adds brings it to the framework's, in 64 bits |
| `Arm64Shim.VCpu.MmioExit` | hv/kvm_linux_arm64.go:167-180 | the syndrome says that the store was of X0 exactly when each of its n bytes is X0's and the others are zero, and X0 then reads as it is |
| `Arm64Shim.MaskedBytes` | hv/kvm_linux_arm64.go:171-175 | the masked X0 is the data exactly when it is so byte by byte |
| `Arm64Shim.StoredExact` | hv/kvm_linux_arm64.go:171-175 | of 8 bytes that is the whole X0, of fewer its remainder by 256^n |
| `Arm64Shim.VCpu.GetPC` | hv/kvm_linux_arm64.go:195-216 | PC reads as the framework's |
| `Arm64Shim.VCpu.SetPC` | hv/kvm_linux_arm64.go:219-236 | a PC set is the framework's PC from then on |
| `Arm64Shim.ShownIsTrace` | hv/kvm_linux_arm64.go:195-216 | what is shown differs from the framework's only in an X0 that a store was not of, which reads as zero |
| `Store.AfterRun` | vmm/store.go:87-165 | after any interleaving of calls, Puts' steps, writes cut short and monitors that end: every blob served hashes to its name, a monitor serves the same bytes of it ever after, the compare-and-sets of each name are a chain, what this monitor made a ref name it can serve, and (of a hash without collisions) what any ref names is whole |
| `Store.DirStore.Load` | vmm/store.go:104-116 | a blob is served exactly when it is cached or its file is whole, with the bytes it was first served with |
| `Store.DirStore.Put` | vmm/store.go:87-101 | it succeeds exactly when the blob is there and whole, or its file is new, can be created and all of it is written; one cut short is refused ever after |
| `Store.DirStore.PutOpen` | vmm/store.go:88-95 | the file is created exactly when it is not there and can be; one there and not whole is an error |
| `Store.DirStore.Write` | vmm/store.go:96 | a file grows by its blob's bytes, and a whole one stays as it is |
| `Store.DirStore.Get` | vmm/store.go:123-132 | as many of the blob's bytes from the offset as there are and as there is room for, each at its place; an offset past the end is none, a negative one fails |
| `Store.DirStore.Reassemble` | vmm/store.go:123-132 | reads at successive offsets, with buffers of any sizes, give the beginning of a blob of that name, and all of it when the sizes come to its length |
| `Store.PutReads` | vmm/store.go:87-132 | what is put is read back, of a hash without collisions; and a new blob that can be created and written whole is put |
| `Store.DirStore.Ref` | vmm/store.go:134-145 | a ref is what the last write of its file left of it |
| `Store.DirStore.SetRef` | vmm/store.go:149-165 | each outcome exactly: a bad name, no blob, a conflict exactly when old is not what the name is (zero for nothing), a file that cannot be opened, which changes nothing, a write cut short, or done |
| `Store.LinksMeet` | vmm/store.go:157-162 | of two writes of one name with none between, a compare-and-set's old is the write's new |
| `RefText.TornRef` | vmm/store.go:134-145 | a ref's file cut short is no ref, unless only its newline is missing: then the ref is set though the write failed |
| `RefText.HexDecodes` | vmm/store.go:143-144 | a hash in hex decodes to itself |
| `RefText.HexAt` | vmm/store.go:163-164 | each byte is two digits, the high one first, 0 to 9 and a to f |
| `RefText.DecodesHex` | vmm/store.go:143-144 | a text decodes exactly when its length is even and its characters are hex digits, of either case |
| `RefText.HexValueExact` | vmm/store.go:143 | a digit of either case has its value and no other character has one |
| `RefText.DecodedAt` | vmm/store.go:143 | and each decoded byte is sixteen times its first digit's and its second's |
| `RefText.RefName` | vmm/store.go:45-55 | the loop accepts exactly the names of 1 to 64 of the characters, not beginning with a dot |
| `RefText.NameChars` | vmm/store.go:50-52 | the characters are the letters, the digits, and the dot, the underscore and the hyphen |
| `Chunks.Cut` | editor/chunks.go:22-35 | the chunks are not empty, disjoint and cover the range, at most four for each processor and none but the last smaller than 64 |
| `Chunks.AnySchedule` | editor/chunks.go:28-37 | for work that is a conjunction over the indices, every interleaving of the goroutines gives the loop's answer, and of a true one every index is done exactly once |
| `Chunks.StepKeeps` | editor/chunks.go:30-35 | each step of a goroutine keeps how far its chunk is, and that a failure has an index |
| `Chunks.SchedulesEnd` | editor/chunks.go:28-37 | no schedule is longer than the steps there are at first, and a goroutine that has not ended can step |

## Left out

- GuestLayout.Layout.BuildTables: asks that the spans lie in what the tables' indices tell apart (2^48
  bytes on amd64, 2^39 on arm64), since of others no tables are right (PageWalk.NoTables); which of two
  such entries the code leaves in the tables is not modelled.
- Plan.CSafe: is of an image and a slot that end below the doorbell, which is exactly when the spans are in
  order (Plan.CSorted); the counts of vCPUs are up to the 32 that the monitor clamps them to.
- On amd64 the leaf has no device bit: device is compared on arm64 only.
- Boot.BootC: leaves out the registers and the descriptor tables that setup writes besides the page tables;
  asks that the image ends within what the tables' indices tell apart, as BuildTables does, and that its
  segments follow one another, as the spans' own comment has it.
- Boot.BootGo: asks the same.
- The vCPUs', the parker's and the chunks' goroutines are steps on a value, not methods of a class, since
  what is proved is about every interleaving of them; a critical section is one step, and so is each
  turn of a loop that holds the lock.
- The vCPUs' guest memory, call blocks and statistics, what their calls return to the guest (0 or -1), and
  the teardown after the loops' ends (VCPUDestroy, VMDestroy).
- The watchdog's clock: it may end a guest at any time, once; that it does so only after a time without a
  call is not modelled.
- SmpSafety.RunningCounts: is of several vCPUs and until the run ends; SmpCalls.AloneCounts is of one, which
  is not counted out for a Host call, and after the end the vCPUs leave without being counted.
- SmpShutdown.HaltedEnds: takes every Host call to return, and every step that a vCPU can take to be
  taken some time; one cancel is delivered to each vCPU, as halt sends one.
- The memory model is sequential consistency, which is what Go's atomics, mutexes and channels give here.
- Parker.WakeEndsPark: FUTEX_WAKE and FUTEX_WAIT are their assumed steps; of a wait's timeout only that
  it may end the wait is used.
- Format.VimSnprintf: a format that is a nil pointer (it is the empty one), the messages for a refused
  format, and gettext.  The digits of %p and the two functions behind %S (a character's length and its
  cells) are any functions; the arguments' strings and the format are values, so nothing aliases the buffer.
- FormatMeets.FormatsMeet: is of what the standard says and the program means to follow: not of `h`
  (FormatShort.ShortExact), of `0` with c or s, which the standard leaves undefined, of a star's argument that
  is the least int (FormatStandard.MeetsStandard) or above the limit, nor of numbers written in the format that
  are above it, which the program cuts down to it; texts are shorter than 2^30.  That the first pass accepts a
  format is stated there of one that names no argument; of those that do, by FormatTypes.ParseFmtTypes.
- A format that ends in "%$" makes the code read one byte past its NUL; the model reads a NUL there, and
  both then refuse the format.
- Seccomp's list of allowed calls, and its installation (prctl and seccomp).
- Arm64Shim.Drive: takes every register call to KVM to succeed; a failed one between an exit and the next
  run is not modelled.  Hypercall exits, and the registers but PC and X0.
- Arm64Shim.VCpu.GetX0: reads zero after a store that was not of X0, as the code does, and not the
  framework's X0; the exit's syndrome then says that no register is known.
- RefText trims the ASCII white space of a ref's file; other white space of Unicode is not modelled.
- The store's hash is any function, and SHA-256 is not part of this model; a Ref that races a SetRef's file
  write is not either, nor are two stores on one directory at once, nor a file that is there and cannot
  be read.
- Store.AfterRun: that what a ref names is whole is of a hash without collisions; the rest is of any hash.
- Chunks.AnySchedule: is of work that is a conjunction over its indices; other work that writes what
  another part reads is outside what Chunks promises.
- The image trailer, the generated editor core, the C front end, the launchers and
  the macOS backend: not part of this model.
