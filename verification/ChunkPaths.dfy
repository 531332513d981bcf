/** What the path of a module decides about its chunk, before any graph is looked at. */
module ChunkPaths {
  function Normalized(id: string): (path: string)
    ensures |path| == |id|
  {
    seq(|id|, i requires 0 <= i < |id| => if id[i] == '\\' then '/' else id[i])
  }

  predicate EndsWith(s: string, suffix: string) {
    |suffix| <= |s| && s[|s| - |suffix|..] == suffix
  }

  predicate Contains(s: string, part: string) {
    exists i | 0 <= i <= |s| :: part <= s[i..]
  }

  // The part of a path behind its last slash, and the part before it.
  function FileOf(path: string): (file: string)
    ensures |file| <= |path| && path[|path| - |file|..] == file
  {
    if path == "" || path[|path| - 1] == '/' then ""
    else FileOf(path[..|path| - 1]) + [path[|path| - 1]]
  }

  function DirectoryOf(path: string): string {
    var n := |FileOf(path)|;
    if n < |path| then path[..|path| - n - 1] else ""
  }

  lemma {:induction false} SplitAtLastSlash(directory: string, file: string)
    requires '/' !in file
    ensures FileOf(directory + "/" + file) == file && DirectoryOf(directory + "/" + file) == directory
  {
    var path := directory + "/" + file;
    if file != "" {
      var front := file[..|file| - 1];
      SplitAtLastSlash(directory, front);
      assert path[..|path| - 1] == directory + "/" + front;
      assert path[|path| - 1] == file[|file| - 1] && file[|file| - 1] in file;
    }
    assert FileOf(path) == file;
    assert path[..|path| - |file| - 1] == directory;
  }

  // ---------------------------------------------------------------- the four exemptions

  const OverlaySuffixes := [
    "/node_modules/@radix-ui/react-dropdown-menu/dist/index.mjs",
    "/node_modules/@radix-ui/react-menu/dist/index.mjs",
    "/node_modules/@radix-ui/react-popover/dist/index.mjs",
    "/node_modules/@radix-ui/react-popper/dist/index.mjs",
    "/node_modules/@floating-ui/core/dist/floating-ui.core.mjs",
    "/node_modules/@floating-ui/dom/dist/floating-ui.dom.mjs",
    "/node_modules/@floating-ui/react-dom/dist/floating-ui.react-dom.mjs",
    "/node_modules/@floating-ui/utils/dist/floating-ui.utils.dom.mjs",
    "/node_modules/@floating-ui/utils/dist/floating-ui.utils.mjs",
    "/node_modules/vaul/dist/index.mjs"]

  predicate IsOverlay(path: string) {
    exists i | 0 <= i < |OverlaySuffixes| :: EndsWith(path, OverlaySuffixes[i])
  }

  predicate IsScript(file: string, stems: set<string>) {
    |file| > 3 && file[|file| - 3..] in {".js", ".ts"} && file[..|file| - 3] in stems
  }

  predicate InContracts(path: string) {
    EndsWith(DirectoryOf(path), "/packages/contracts/dist") || EndsWith(DirectoryOf(path), "/packages/contracts/src")
  }

  predicate InSharedApi(path: string) {
    || EndsWith(DirectoryOf(path), "/packages/mission-control-shared/dist/api")
    || EndsWith(DirectoryOf(path), "/packages/mission-control-shared/src/api")
  }

  predicate IsContractLeaf(path: string) {
    var file := FileOf(path);
    && InContracts(path)
    && (|| IsScript(file, {"secret-redaction", "channel-sanitizer", "durable-child-watcher-bounds", "change-plan",
                           "external-sources"})
        || (|file| > 17 && file[|file| - 3..] in {".js", ".ts"} && "remote-worker-" <= file))
  }

  predicate IsRadixLeaf(path: string) {
    || Contains(path, "/node_modules/@radix-ui/react-tooltip/")
    || Contains(path, "/node_modules/@radix-ui/react-tabs/")
    || Contains(path, "/node_modules/@radix-ui/react-switch/")
  }

  predicate IsExternalSources(path: string) {
    InSharedApi(path) && IsScript(FileOf(path), {"external-sources"})
  }

  predicate Exempt(id: string) {
    var path := Normalized(id);
    IsOverlay(path) || IsContractLeaf(path) || IsRadixLeaf(path) || IsExternalSources(path)
  }

  // ---------------------------------------------------------------- bound and known owners

  predicate IsBoundCapability(id: string) {
    InSharedApi(Normalized(id)) && IsScript(FileOf(Normalized(id)), {"capabilities-operations", "capabilities-query"})
  }

  predicate IsBoundMemory(id: string) {
    InSharedApi(Normalized(id)) && IsScript(FileOf(Normalized(id)), {"memory"})
  }

  // Where an owner lies: its directory and its file.
  datatype Place = Place(directory: string, file: string)

  function Suffix(p: Place): string {
    p.directory + "/" + p.file
  }

  const Chat := "/apps/mission-control-next/src/cockpit/areas/chat"
  const Inbox := "/apps/mission-control-next/src/cockpit/areas/inbox"
  const Ui := "/apps/mission-control-next/src/cockpit/ui"
  const Ops := "/apps/mission-control-next/src/features/native-routes/ops"
  const Dist := "/packages/mission-control-shared/dist/content"
  const Src := "/packages/mission-control-shared/src/content"

  // The parts of the approval body, each with the places its owner may have.
  const BodyParts: seq<seq<Place>> := [
    [Place(Chat, "ChatApprovalRendererBody.ts")],
    [Place(Inbox, "ApprovalDecisionBar.tsx")],
    [Place(Dist, "approval-helpers.js"), Place(Src, "approval-helpers.ts")],
    [Place(Ui, "evidence-scroll.ts")],
    [Place(Inbox, "ApprovalSettlement.tsx")],
    [Place(Inbox, "inbox-approval-attempts.ts")],
    [Place(Dist, "communications-approval-evidence.js"), Place(Src, "communications-approval-evidence.ts")],
    [Place(Inbox, "specialist-approval-evidence.ts")],
    [Place(Inbox, "SpecialistApprovalReview.tsx")],
    [Place(Inbox, "ApprovalReviewSummary.tsx")],
    [Place(Chat, "RiskApprovalAction.tsx")],
    [Place(Inbox, "inbox-approval-guard.ts")],
    [Place(Inbox, "approval-settlement.ts")],
    [Place(Inbox, "approval-follow-on.ts")],
    [Place(Ops, "native-runtime-approval-evidence.ts")],
    [Place(Dist, "external-source-approval-evidence.js"), Place(Src, "external-source-approval-evidence.ts")]]

  predicate Owns(part: nat, id: string)
    requires part < |BodyParts|
  {
    exists i | 0 <= i < |BodyParts[part]| :: EndsWith(Normalized(id), Suffix(BodyParts[part][i]))
  }

  predicate OwnsAPart(id: string) {
    exists part | 0 <= part < |BodyParts| :: Owns(part, id)
  }

  predicate KnownApprovalOwner(id: string) {
    || OwnsAPart(id)
    || EndsWith(Normalized(id), "/packages/contracts/dist/durable-chat-turn-payload.js")
    || EndsWith(Normalized(id), "/packages/contracts/src/durable-chat-turn-payload.ts")
  }

  predicate IsMain(id: string) {
    EndsWith(Normalized(id), "/src/main.tsx")
  }

  predicate IsEntry(id: string) {
    EndsWith(Normalized(id), "/src/cockpit-entry.tsx")
  }

  // ---------------------------------------------------------------- owners and exemptions

  function Back(s: string, n: nat): char {
    if 0 < n <= |s| then s[|s| - n] else ' '
  }

  lemma BackOfSuffix(s: string, suffix: string, n: nat)
    requires EndsWith(s, suffix) && 0 < n <= |suffix|
    ensures Back(s, n) == Back(suffix, n)
  {
    assert s[|s| - |suffix|..][|suffix| - n] == s[|s| - n];
  }

  // What tells the owners' paths from the exempt ones: the third character from the end, and the last two of
  // the directory.
  predicate OwnerShaped(p: Place) {
    FileShaped(p.file) && DirectoryShaped(p.directory)
  }

  predicate FileShaped(file: string) {
    '/' !in file && |file| >= 3 && Back(file, 3) in {'.', 't'}
  }

  predicate DirectoryShaped(directory: string) {
    && |directory| >= 2
    && (Back(directory, 2), Back(directory, 1)) in {('a', 't'), ('o', 'x'), ('u', 'i'), ('p', 's'), ('n', 't')}
  }

  lemma DirectoriesAreShaped()
    ensures DirectoryShaped(Chat) && DirectoryShaped(Inbox) && DirectoryShaped(Ui)
    ensures DirectoryShaped(Ops) && DirectoryShaped(Dist) && DirectoryShaped(Src)
  {
  }

  lemma FilesAreShaped1()
    ensures FileShaped("ChatApprovalRendererBody.ts")
    ensures FileShaped("ApprovalDecisionBar.tsx")
    ensures FileShaped("approval-helpers.js")
  {
  }

  lemma FilesAreShaped2()
    ensures FileShaped("approval-helpers.ts")
    ensures FileShaped("evidence-scroll.ts")
    ensures FileShaped("ApprovalSettlement.tsx")
  {
  }

  lemma FilesAreShaped3()
    ensures FileShaped("inbox-approval-attempts.ts")
    ensures FileShaped("communications-approval-evidence.js")
    ensures FileShaped("communications-approval-evidence.ts")
  {
  }

  lemma FilesAreShaped4()
    ensures FileShaped("specialist-approval-evidence.ts")
    ensures FileShaped("SpecialistApprovalReview.tsx")
    ensures FileShaped("ApprovalReviewSummary.tsx")
  {
  }

  lemma FilesAreShaped5()
    ensures FileShaped("RiskApprovalAction.tsx")
    ensures FileShaped("inbox-approval-guard.ts")
    ensures FileShaped("approval-settlement.ts")
  {
  }

  lemma FilesAreShaped6()
    ensures FileShaped("approval-follow-on.ts")
  {
  }

  lemma FilesAreShaped7()
    ensures FileShaped("native-runtime-approval-evidence.ts")
    ensures FileShaped("external-source-approval-evidence.js")
  {
  }

  lemma FilesAreShaped8()
    ensures FileShaped("external-source-approval-evidence.ts")
  {
  }

  lemma FilesAreShaped()
    ensures forall part, i | 0 <= part < |BodyParts| && 0 <= i < |BodyParts[part]| ::
      FileShaped(BodyParts[part][i].file)
  {
    hide FileShaped;
    FilesAreShaped1();
    FilesAreShaped2();
    FilesAreShaped3();
    FilesAreShaped4();
    FilesAreShaped5();
    FilesAreShaped6();
    FilesAreShaped7();
    FilesAreShaped8();
  }

  lemma DirectoriesOfParts()
    ensures forall part, i | 0 <= part < |BodyParts| && 0 <= i < |BodyParts[part]| ::
      BodyParts[part][i].directory in {Chat, Inbox, Ui, Ops, Dist, Src}
  {
    hide Chat, Inbox, Ui, Ops, Dist, Src;
  }

  lemma OwnersAreShaped(part: nat, i: nat)
    requires part < |BodyParts| && i < |BodyParts[part]|
    ensures OwnerShaped(BodyParts[part][i])
  {
    hide BodyParts, FileShaped, DirectoryShaped, Chat, Inbox, Ui, Ops, Dist, Src;
    FilesAreShaped();
    DirectoriesAreShaped();
    DirectoriesOfParts();
  }

  lemma SixteenParts()
    ensures |BodyParts| == 16
  {
  }

  lemma OverlaysAreShaped()
    ensures forall i | 0 <= i < |OverlaySuffixes| :: |OverlaySuffixes[i]| > 3 && Back(OverlaySuffixes[i], 3) == 'm'
  {
  }

  // The file and the end of the directory of a path that ends like an owner's.
  lemma OwnerPath(path: string, p: Place)
    requires OwnerShaped(p) && EndsWith(path, Suffix(p))
    ensures FileOf(path) == p.file && EndsWith(DirectoryOf(path), p.directory)
    ensures Back(path, 3) == Back(p.file, 3)
    ensures Back(DirectoryOf(path), 1) == Back(p.directory, 1) && Back(DirectoryOf(path), 2) == Back(p.directory, 2)
  {
    assert '/' !in p.file && |p.file| >= 3 && |p.directory| >= 2;
    var d := Decomposed(path, p);
    hide EndsWith, FileOf, DirectoryOf, Back, OwnerShaped, Suffix;
    SplitAtLastSlash(d, p.file);
    ConcatEndsWith(d + "/", p.file);
    BackOfSuffix(path, p.file, 3);
    BackOfSuffix(d, p.directory, 1);
    BackOfSuffix(d, p.directory, 2);
  }

  lemma Decomposed(path: string, p: Place) returns (d: string)
    requires EndsWith(path, Suffix(p))
    ensures path == d + "/" + p.file && EndsWith(d, p.directory)
  {
    var rest := path[..|path| - |Suffix(p)|];
    d := rest + p.directory;
    assert path == rest + Suffix(p);
    ConcatEndsWith(rest, p.directory);
    hide EndsWith;
    assert rest + (p.directory + "/" + p.file) == (rest + p.directory) + "/" + p.file;
  }

  lemma ConcatEndsWith(a: string, b: string)
    ensures EndsWith(a + b, b)
  {
  }

  lemma OverlayBack(path: string)
    requires IsOverlay(path)
    ensures Back(path, 3) == 'm'
  {
    hide OverlaySuffixes;
    OverlaysAreShaped();
    var i :| 0 <= i < |OverlaySuffixes| && EndsWith(path, OverlaySuffixes[i]);
    BackOfSuffix(path, OverlaySuffixes[i], 3);
  }

  lemma ContractsBack(path: string)
    requires InContracts(path)
    ensures (Back(DirectoryOf(path), 2), Back(DirectoryOf(path), 1)) in {('s', 't'), ('r', 'c')}
  {
    var directory := DirectoryOf(path);
    var suffix := if EndsWith(directory, "/packages/contracts/dist")
                  then "/packages/contracts/dist" else "/packages/contracts/src";
    BackOfSuffix(directory, suffix, 1);
    BackOfSuffix(directory, suffix, 2);
  }

  lemma SharedApiBack(path: string)
    requires InSharedApi(path)
    ensures (Back(DirectoryOf(path), 2), Back(DirectoryOf(path), 1)) == ('p', 'i')
  {
    var directory := DirectoryOf(path);
    var suffix := if EndsWith(directory, "/packages/mission-control-shared/dist/api")
                  then "/packages/mission-control-shared/dist/api" else "/packages/mission-control-shared/src/api";
    BackOfSuffix(directory, suffix, 1);
    BackOfSuffix(directory, suffix, 2);
  }

  // Main result: the owner of a part of the approval body is exempt from placement only when its whole path
  // runs through one of three Radix packages.
  lemma OwnersAreExemptOnlyInRadix(id: string)
    requires OwnsAPart(id)
    ensures Exempt(id) <==> IsRadixLeaf(Normalized(id))
  {
    hide BodyParts, OwnerShaped, Suffix, IsRadixLeaf, IsScript, FileOf, DirectoryOf, InContracts, InSharedApi,
      IsOverlay;
    var path := Normalized(id);
    var part :| 0 <= part < |BodyParts| && Owns(part, id);
    var i :| 0 <= i < |BodyParts[part]| && EndsWith(path, Suffix(BodyParts[part][i]));
    OwnersAreShaped(part, i);
    OwnerPath(path, BodyParts[part][i]);
    ShapeOf(BodyParts[part][i]);
    if IsOverlay(path) { OverlayBack(path); }
    if InContracts(path) { ContractsBack(path); }
    if InSharedApi(path) { SharedApiBack(path); }
  }

  lemma ShapeOf(p: Place)
    requires OwnerShaped(p)
    ensures Back(p.file, 3) != 'm'
    ensures (Back(p.directory, 2), Back(p.directory, 1)) !in {('s', 't'), ('r', 'c'), ('p', 'i')}
  {
  }

  // No file name belongs to two parts: the length and the first character tell them apart.
  function Fingerprint(file: string): (nat, char) {
    (|file|, if file == "" then ' ' else file[0])
  }

  const Fingerprints: seq<(nat, char)> := [
    (27, 'C'), (23, 'A'), (19, 'a'), (18, 'e'), (22, 'A'), (26, 'i'), (35, 'c'), (31, 's'),
    (28, 'S'), (25, 'A'), (22, 'R'), (23, 'i'), (22, 'a'), (21, 'a'), (35, 'n'), (36, 'e')]

  lemma FilesHaveTheirFingerprints(part: nat, i: nat)
    requires part < |BodyParts| && i < |BodyParts[part]|
    ensures part < |Fingerprints| && Fingerprint(BodyParts[part][i].file) == Fingerprints[part]
  {
  }

  lemma FingerprintsDiffer(part: nat, other: nat)
    requires part < |Fingerprints| && other < |Fingerprints| && part != other
    ensures Fingerprints[part] != Fingerprints[other]
  {
  }

  // A path that ends like the owner of one part does not end like the owner of another.
  lemma OnePartOnly(path: string, part: nat, i: nat, other: nat, j: nat)
    requires part < |BodyParts| && i < |BodyParts[part]| && other < |BodyParts| && j < |BodyParts[other]|
    requires EndsWith(path, Suffix(BodyParts[part][i])) && EndsWith(path, Suffix(BodyParts[other][j]))
    ensures part == other
  {
    hide BodyParts, OwnerShaped, Suffix, Fingerprints, Fingerprint;
    OwnersAreShaped(part, i);
    OwnersAreShaped(other, j);
    OwnerPath(path, BodyParts[part][i]);
    OwnerPath(path, BodyParts[other][j]);
    FilesHaveTheirFingerprints(part, i);
    FilesHaveTheirFingerprints(other, j);
    if part != other { FingerprintsDiffer(part, other); }
  }
}
