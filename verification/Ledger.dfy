/** The permission ledger: its operations, and what survives saving and restoring it. */
module Ledger {
  import opened Prelude
  import opened Sorting
  import opened LedgerData
  import DirectoryProposal

  predicate Hex64(s: string) {
    |s| == 64 && forall i :: 0 <= i < |s| ==> '0' <= s[i] <= '9' || 'a' <= s[i] <= 'f'
  }

  predicate Filled(s: Option<string>) {
    s.Some? && s.value != ""
  }

  predicate IsShell(toolName: string) {
    toolName == "bash" || toolName == "bg_run"
  }

  const NUL := ['\0']

  function OwnerKey(key: string, owner: Option<Owner>): string {
    if owner.None? then key
    else "child" + NUL + owner.value.sessionId + NUL + FolderText(owner.value) + NUL + key
  }

  function GrantKey(toolName: string, input: string, owner: Option<Owner>): string {
    OwnerKey(toolName + NUL + input, owner)
  }

  predicate Plain(s: string) {
    '\0' !in s
  }

  function FolderText(owner: Owner): string {
    if owner.cwd.Some? then owner.cwd.value else ""
  }

  predicate PlainOwner(owner: Option<Owner>) {
    owner.Some? ==> Plain(owner.value.sessionId) && Plain(FolderText(owner.value))
  }

  /**
    Where no part holds a NUL, calls have the same key only if they are the same call of the same
    owner: what a child was granted is granted to no other child, nor to the session above it.
   */
  lemma GrantKeysDiffer(toolA: string, inputA: string, a: Option<Owner>, toolB: string, inputB: string,
                        b: Option<Owner>)
    requires Plain(toolA) && Plain(inputA) && PlainOwner(a) && Plain(toolB) && Plain(inputB) && PlainOwner(b)
    requires GrantKey(toolA, inputA, a) == GrantKey(toolB, inputB, b)
    ensures toolA == toolB && inputA == inputB && a.Some? == b.Some?
    ensures a.Some? ==> a.value.sessionId == b.value.sessionId && FolderText(a.value) == FolderText(b.value)
  {
    var x, y := toolA + NUL + inputA, toolB + NUL + inputB;
    if a.Some? && b.Some? {
      OwnedKeysDiffer(x, a.value, y, b.value);
      FieldsSplit(toolA, inputA, toolB, inputB, '\0');
    } else if a.None? && b.None? {
      FieldsSplit(toolA, inputA, toolB, inputB, '\0');
    } else if a.Some? {
      OwnedApart(toolB, inputB, a.value, x);
    } else {
      OwnedApart(toolA, inputA, b.value, y);
    }
  }

  function OwnedRest(owner: Owner, key: string): string {
    owner.sessionId + NUL + (FolderText(owner) + NUL + key)
  }

  lemma OwnedKey(key: string, owner: Owner)
    ensures OwnerKey(key, Some(owner)) == "child" + NUL + OwnedRest(owner, key)
  {
  }

  lemma OwnedKeysDiffer(x: string, a: Owner, y: string, b: Owner)
    requires PlainOwner(Some(a)) && PlainOwner(Some(b)) && OwnerKey(x, Some(a)) == OwnerKey(y, Some(b))
    ensures x == y && a.sessionId == b.sessionId && FolderText(a) == FolderText(b)
  {
    OwnedKey(x, a);
    OwnedKey(y, b);
    FieldsSplit("child", OwnedRest(a, x), "child", OwnedRest(b, y), '\0');
    FieldsSplit(a.sessionId, FolderText(a) + NUL + x, b.sessionId, FolderText(b) + NUL + y, '\0');
    FieldsSplit(FolderText(a), x, FolderText(b), y, '\0');
  }

  lemma OwnedApart(tool: string, input: string, owner: Owner, key: string)
    requires Plain(tool) && Plain(input)
    ensures tool + NUL + input != OwnerKey(key, Some(owner))
  {
    OwnedKey(key, owner);
    var rest := OwnedRest(owner, key);
    assert rest[|owner.sessionId|] == '\0';
    if tool + NUL + input == "child" + NUL + rest {
      FieldsSplit(tool, input, "child", rest, '\0');
    }
  }

  // ---- saving and restoring ----

  function SnapshotOf(l: LedgerData.Ledger): PermissionRecord {
    PermissionRecord(if l.rejected == [] then None else Some(l.rejected), Some(l.denials), Some(NewestFirst(l.grants)))
  }

  function AddKey(keys: seq<string>, key: string): seq<string> {
    if key in keys then keys else keys + [key]
  }

  /** A set of the keys that look like digests, in the order they came. */
  function DigestsIn(keys: seq<string>): (r: seq<string>)
    ensures Distinct(r) && forall k :: k in r <==> k in keys && Hex64(k)
  {
    if keys == [] then []
    else
      assert keys == keys[..|keys| - 1] + [keys[|keys| - 1]];
      var rest, last := DigestsIn(keys[..|keys| - 1]), keys[|keys| - 1];
      if Hex64(last) then AddKey(rest, last) else rest
  }

  function RestoreOf(record: Option<PermissionRecord>): LedgerData.Ledger {
    var rejected := if record.Some? && record.value.rejected.Some? then DigestsIn(record.value.rejected.value) else [];
    var denials := if record.Some? && record.value.denials.Some? then Prefix(record.value.denials.value, DENIAL_LIMIT)
      else [];
    var grants := if record.Some? && record.value.grants.Some? then MapOf(record.value.grants.value) else [];
    LedgerData.Ledger(denials, grants, Highest(denials) + 1, rejected)
  }

  /** Grants under keys of their own, and rejected calls as a set of digests. */
  ghost predicate Keyed(l: LedgerData.Ledger) {
    DistinctKeys(l.grants) && Distinct(l.rejected) && forall k :: k in l.rejected ==> Hex64(k)
  }

  lemma {:induction false} DigestsOfSet(keys: seq<string>)
    requires Distinct(keys) && forall k :: k in keys ==> Hex64(k)
    ensures DigestsIn(keys) == keys
  {
    if keys != [] {
      var init, last := keys[..|keys| - 1], keys[|keys| - 1];
      DigestsOfSet(init);
      assert keys == init + [last] && last !in init && last in keys;
    }
  }

  /**
    Restoring what was saved gives back the same denials, the same grants by key, the same rejected
    calls and the same next id; and saving that again saves the same.
   */
  lemma RestoreUndoesSnapshot(l: LedgerData.Ledger)
    requires Numbered(l) && Keyed(l)
    ensures var r := RestoreOf(Some(SnapshotOf(l)));
      && r == l.(grants := NewestFirst(l.grants)) && Numbered(r) && Keyed(r)
      && Table(r.grants) == Table(l.grants)
      && SnapshotOf(r) == SnapshotOf(l)
  {
    hide Numbered, Highest, NewestFirst, DistinctKeys, Hex64, Table;
    NumberedHighest(l);
    NumberedLimit(l);
    NewestFirstTable(l.grants);
    MapOfDistinct(NewestFirst(l.grants));
    DigestsOfSet(l.rejected);
    NewestFirstAgain(l.grants);
    NumberedAlike(l, l.(grants := NewestFirst(l.grants)));
  }

  lemma NewestFirstAgain(gs: seq<Grant>)
    ensures NewestFirst(NewestFirst(gs)) == NewestFirst(gs)
  {
    SortSorted((g: Grant) => -g.at, NewestFirst(gs));
  }

  lemma NumberedLimit(l: LedgerData.Ledger)
    requires Numbered(l)
    ensures |l.denials| <= DENIAL_LIMIT && l.nextId >= 1
  {
  }

  /** Numbering is about the ids and the next id only. */
  lemma NumberedAlike(l: LedgerData.Ledger, m: LedgerData.Ledger)
    requires Numbered(l) && m.nextId == l.nextId && |m.denials| == |l.denials|
    requires forall i :: 0 <= i < |l.denials| ==> m.denials[i].id == l.denials[i].id
    ensures Numbered(m)
  {
    hide Id;
  }

  /** Whatever record is restored, the ledger is well keyed, and its next id is not one that it kept. */
  lemma RestoredIsKeyed(record: Option<PermissionRecord>)
    ensures var l := RestoreOf(record);
      Keyed(l) && |l.denials| <= DENIAL_LIMIT && forall i :: 0 <= i < |l.denials| ==> l.denials[i].id != Id(l.nextId)
  {
    if record.Some? && record.value.grants.Some? {
      MapOfKeys(record.value.grants.value);
    }
    IdReadsBack(RestoreOf(record).nextId);
  }

  // ---- the ledger ----

  function FindDenial(denials: seq<Denial>, id: string): (r: Option<nat>)
    ensures r.Some? ==> r.value < |denials| && denials[r.value].id == id
    ensures forall i :: 0 <= i < (if r.Some? then r.value else |denials|) ==> denials[i].id != id
  {
    if denials == [] then None
    else if denials[0].id == id then Some(0)
    else
      var r := FindDenial(denials[1..], id);
      if r.Some? then Some(r.value + 1) else None
  }

  function KeyOf(d: Denial): string {
    GrantKey(d.call.toolName, d.call.input, d.call.owner)
  }

  /** Approving a key approves every open denial of it. */
  function ApproveKey(d: Denial, key: string): Denial {
    if d.state == Open && KeyOf(d) == key then d.(state := Approved) else d
  }

  function AllApproved(denials: seq<Denial>, key: string): seq<Denial> {
    seq(|denials|, i requires 0 <= i < |denials| => ApproveKey(denials[i], key))
  }

  /** A child whose session is not known. */
  predicate Unknown(owner: Option<Owner>) {
    owner.Some? && owner.value.sessionId == ""
  }

  /** Denials that cannot be approved. */
  predicate Refused(d: Denial) {
    d.call.incomplete || d.call.policyDenied || Unknown(d.call.owner)
  }

  /** An approval that covers the call's directories. */
  predicate WithinDirectories(d: Denial, cwd: Option<string>) {
    Filled(cwd) && d.call.directories != []
  }

  predicate Scoped(g: Grant) {
    g.scope.Some? && g.directory.None?
  }

  function AccessText(a: DirectoryProposal.Access): string {
    match a
    case Read => "read"
    case Write => "write"
    case Execute => "execute"
    case ReadExecute => "read-execute"
    case WriteExecute => "write-execute"
  }

  function DirectoryText(d: Directory): string {
    "directory" + NUL + (AccessText(d.access) + NUL + d.path)
  }

  /** The key of a grant that is saved for a workspace, or of one for this session. */
  function SavedText(savedFor: Option<string>, key: string): string {
    if Filled(savedFor) then "saved" + NUL + (savedFor.value + NUL + key) else key
  }

  lemma AllApprovedLength(denials: seq<Denial>, key: string)
    ensures |AllApproved(denials, key)| == |denials|
  {
  }

  lemma KeyedAlike(l: LedgerData.Ledger, m: LedgerData.Ledger)
    requires Keyed(l) && m.grants == l.grants && m.rejected == l.rejected
    ensures Keyed(m)
  {
  }

  lemma WithoutStep(gs: seq<Grant>, drop: Grant -> bool, i: nat)
    requires i < |gs|
    ensures gs[..0] == [] && gs[0..] == gs
    ensures Without(gs[i..], drop) ==
      if drop(gs[i]) then Without(gs[i + 1..], drop) else [gs[i]] + Without(gs[i + 1..], drop)
  {
    assert gs[i..][1..] == gs[i + 1..];
  }

  lemma WithoutEnd(gs: seq<Grant>, drop: Grant -> bool)
    ensures Without(gs[|gs|..], drop) == []
  {
  }

  lemma RevokedTable(gs: seq<Grant>, key: string)
    requires DistinctKeys(gs)
    ensures var r := Without(gs, (g: Grant) => g.key == key);
      DistinctKeys(r) && !HasGrant(r, key) && Table(r) == Table(gs) - {key}
  {
    var r := Without(gs, (g: Grant) => g.key == key);
    WithoutTable(gs, (g: Grant) => g.key == key);
    assert forall i :: 0 <= i < |r| ==> r[i] in r;
  }

  class PermissionLedger {
    /** The reusable scope of a call, if it has one, and the digest a rejected call is kept under. */
    const scopeOf: (string, string, string) -> Option<Scope>
    const digest: string -> string
    /** How a directory grant reads. */
    const textOf: (Directory, Option<string>) -> string
    /** A directory as the input of its grant. */
    const inputOf: Directory -> string
    var denials: seq<Denial>
    var grants: seq<Grant>
    var nextId: nat
    var rejected: seq<string>

    function State(): LedgerData.Ledger
      reads this
    {
      LedgerData.Ledger(denials, grants, nextId, rejected)
    }

    ghost predicate Valid()
      reads this
    {
      Keyed(State()) && Numbered(State()) && forall s :: Hex64(digest(s))
    }

    constructor (scopeOf: (string, string, string) -> Option<Scope>, digest: string -> string,
                 textOf: (Directory, Option<string>) -> string,
                 inputOf: Directory -> string)
      requires forall s :: Hex64(digest(s))
      ensures Valid() && State() == LedgerData.Ledger([], [], 1, [])
      ensures this.scopeOf == scopeOf && this.digest == digest
    {
      this.scopeOf, this.digest, this.textOf, this.inputOf := scopeOf, digest, textOf, inputOf;
      denials, grants, nextId, rejected := [], [], 1, [];
    }

    // ---- rejections ----

    /** What a rejection is about: the reusable scope of the call, or the exact call in its folder, of its owner. */
    function RejectionText(toolName: string, input: string, cwd: string, owner: Option<Owner>): string {
      var scope := scopeOf(toolName, input, cwd);
      OwnerKey(if scope.Some? then scope.value.key else cwd + NUL + GrantKey(toolName, input, None), owner)
    }

    function RejectionKey(toolName: string, input: string, cwd: string, owner: Option<Owner>): string {
      digest(RejectionText(toolName, input, cwd, owner))
    }

    /** The key of a call that was blocked in a known folder. */
    function CallKey(call: Blocked): string
      requires call.cwd.Some?
    {
      RejectionKey(call.toolName, call.input, call.cwd.value, call.owner)
    }

    predicate WasRejected(toolName: string, input: string, cwd: string, owner: Option<Owner>)
      reads this
    {
      RejectionKey(toolName, input, cwd, owner) in rejected
    }

    method Reject(id: string)
      requires Valid()
      modifies this`denials, this`rejected
      ensures Valid()
      ensures match FindDenial(old(denials), id)
        case None => State() == old(State())
        case Some(i) =>
          var d := old(denials)[i];
          && denials == old(denials)[i := d.(call := d.call.(review := Some(Review(false, Denied))))]
          && (Filled(d.call.cwd) ==> WasRejected(d.call.toolName, d.call.input, d.call.cwd.value, d.call.owner))
          && rejected == if Filled(d.call.cwd) then AddKey(old(rejected), CallKey(d.call)) else old(rejected)
    {
      hide Numbered, Hex64;
      var found := FindDenial(denials, id);
      if found.None? {
        return;
      }
      var d := denials[found.value];
      denials := denials[found.value := d.(call := d.call.(review := Some(Review(false, Denied))))];
      if Filled(d.call.cwd) {
        rejected := AddKey(rejected, CallKey(d.call));
      }
      NumberedAlike(old(State()), State());
    }

    method ClearRejected() returns (changed: bool)
      requires Valid()
      modifies this`rejected
      ensures Valid() && rejected == [] && (changed <==> old(rejected) != [])
    {
      changed := |rejected| > 0;
      rejected := [];
    }

    // ---- denials ----

    /** Note a blocked call as the newest denial, under the next id. */
    method Record(blocked: Blocked, now: int) returns (denial: Denial)
      requires Valid()
      modifies this`denials, this`nextId, this`rejected
      ensures Valid() && nextId == old(nextId) + 1
      ensures denial == Denial(Id(old(nextId)), now, blocked, Open)
      ensures denials == Prefix([denial] + old(denials), DENIAL_LIMIT)
      ensures forall i :: 0 <= i < |old(denials)| ==> old(denials)[i].id != denial.id
      ensures var rejects := blocked.review.Some? && blocked.review.value.response == Denied && Filled(blocked.cwd);
        rejected == if rejects then AddKey(old(rejected), CallKey(blocked)) else old(rejected)
    {
      hide Id, Numbered, Hex64, DistinctKeys;
      RecordNumbered(State(), Denial(Id(nextId), now, blocked, Open));
      denial := Denial(Id(nextId), now, blocked, Open);
      nextId := nextId + 1;
      denials := Prefix([denial] + denials, DENIAL_LIMIT);
      if blocked.review.Some? && blocked.review.value.response == Denied && Filled(blocked.cwd) {
        rejected := AddKey(rejected, CallKey(blocked));
      }
      NumberedAlike(State().(rejected := old(rejected)), State());
    }

    method Dismiss(id: string)
      requires Valid()
      modifies this`denials
      ensures Valid()
      ensures match FindDenial(old(denials), id)
        case None => denials == old(denials)
        case Some(i) =>
          var d := old(denials)[i];
          denials == if d.state == Open then old(denials)[i := d.(state := Dismissed)] else old(denials)
    {
      hide Hex64, Numbered;
      var found := FindDenial(denials, id);
      if found.Some? && denials[found.value].state == Open {
        denials := denials[found.value := denials[found.value].(state := Dismissed)];
      }
      NumberedAlike(old(State()), State());
    }

    // ---- grants ----

    predicate IsGranted(toolName: string, input: string, owner: Option<Owner>)
      reads this
    {
      HasGrant(grants, GrantKey(toolName, input, owner))
    }

    predicate IsSimilarlyGranted(toolName: string, input: string, cwd: string, owner: Option<Owner>)
      reads this
    {
      var scope := scopeOf(toolName, input, cwd);
      scope.Some? && HasGrant(grants, OwnerKey(scope.value.key, owner))
    }

    method Revoke(key: string)
      requires Valid()
      modifies this`grants
      ensures Valid() && !HasGrant(grants, key) && Table(grants) == old(Table(grants)) - {key}
    {
      hide Numbered, Hex64;
      RevokedTable(grants, key);
      grants := Without(grants, (g: Grant) => g.key == key);
      NumberedAlike(old(State()), State());
    }

    function DirectoryGrant(directory: Directory, owner: Option<Owner>, savedFor: Option<string>, now: int): Grant {
      var key := OwnerKey(SavedText(savedFor, DirectoryText(directory)), owner);
      var scope := Scope(key, textOf(directory, savedFor));
      Grant(key, "directory", inputOf(directory), now, Some(scope), Some(directory), owner,
            if Filled(savedFor) then savedFor else None)
    }

    /** A grant for the reusable scope of a call, if the call has one and its owner is known. */
    function SimilarGrant(toolName: string, input: string, cwd: string, owner: Option<Owner>, now: int): Option<Grant> {
      var scope := scopeOf(toolName, input, cwd);
      if Unknown(owner) || scope.None? then None
      else Some(Grant(OwnerKey(scope.value.key, owner), toolName, input, now, scope, None, owner, None))
    }

    function WithDirectories(gs: seq<Grant>, directories: seq<Directory>, owner: Option<Owner>, now: int): seq<Grant> {
      if directories == [] || Unknown(owner) then gs
      else
        Put(WithDirectories(gs, directories[..|directories| - 1], owner, now),
            DirectoryGrant(directories[|directories| - 1], owner, None, now))
    }

    function WithSimilar(gs: seq<Grant>, toolName: string, input: string, cwd: string, owner: Option<Owner>,
                         now: int): seq<Grant> {
      var g := SimilarGrant(toolName, input, cwd, owner, now);
      if g.Some? then Put(gs, g.value) else gs
    }

    /** The grants of a combined approval: its directories, and its call unless only a file was asked for. */
    function WithScope(gs: seq<Grant>, toolName: string, input: string, cwd: string, directories: seq<Directory>,
                       owner: Option<Owner>, now: int)
        : seq<Grant>
    {
      var withDirectories := WithDirectories(gs, directories, owner, now);
      if (owner.None? || Filled(owner.value.cwd)) && (directories == [] || IsShell(toolName))
      then WithSimilar(withDirectories, toolName, input, cwd, owner, now) else withDirectories
    }

    method ApproveDirectory(directory: Directory, owner: Option<Owner>, savedFor: Option<string>, now: int)
      returns (grant: Option<Grant>)
      requires Valid()
      modifies this`grants
      ensures Valid() && (grant.None? <==> Unknown(owner))
      ensures grant.None? ==> grants == old(grants)
      ensures grant.Some? ==>
        grant.value == DirectoryGrant(directory, owner, savedFor, now) && grants == Put(old(grants), grant.value)
    {
      hide Numbered, Hex64;
      if Unknown(owner) {
        return None;
      }
      var g := DirectoryGrant(directory, owner, savedFor, now);
      PutKeys(grants, g);
      grants := Put(grants, g);
      NumberedAlike(old(State()), State());
      return Some(g);
    }

    method ApproveSimilar(toolName: string, input: string, cwd: string, owner: Option<Owner>, now: int)
      returns (grant: Option<Grant>)
      requires Valid()
      modifies this`grants
      ensures Valid() && grant == SimilarGrant(toolName, input, cwd, owner, now)
      ensures grants == WithSimilar(old(grants), toolName, input, cwd, owner, now)
      ensures grant.Some? ==> IsSimilarlyGranted(toolName, input, cwd, owner)
    {
      hide Numbered, Hex64;
      grant := SimilarGrant(toolName, input, cwd, owner, now);
      if grant.Some? {
        PutKeys(grants, grant.value);
        grants := Put(grants, grant.value);
        assert grant.value in grants;
      }
      NumberedAlike(old(State()), State());
    }

    method RememberScope(toolName: string, input: string, cwd: string, directories: seq<Directory>,
                         owner: Option<Owner>, now: int)
      requires Valid()
      modifies this`grants
      ensures Valid() && grants == WithScope(old(grants), toolName, input, cwd, directories, owner, now)
    {
      hide Numbered, Keyed, Hex64;
      for i := 0 to |directories|
        invariant Valid() && grants == WithDirectories(old(grants), directories[..i], owner, now)
      {
        assert directories[..i + 1][..i] == directories[..i];
        var _ := ApproveDirectory(directories[i], owner, None, now);
      }
      assert directories[..|directories|] == directories;
      if (owner.None? || Filled(owner.value.cwd)) && (directories == [] || IsShell(toolName)) {
        var _ := ApproveSimilar(toolName, input, cwd, owner, now);
      }
    }

    /** Delete the grants that a condition picks. */
    method DeleteWhere(drop: Grant -> bool) returns (changed: bool)
      requires Valid()
      modifies this`grants
      ensures Valid() && grants == Without(old(grants), drop)
      ensures changed <==> exists g :: g in old(grants) && drop(g)
    {
      hide Numbered, Hex64, Without, Distinct;
      var all, kept: seq<Grant> := grants, [];
      changed := false;
      for i := 0 to |all|
        invariant kept + Without(all[i..], drop) == Without(all, drop)
        invariant changed <==> exists j :: 0 <= j < i && drop(all[j])
      {
        WithoutStep(all, drop, i);
        if drop(all[i]) {
          changed := true;
        } else {
          assert kept + ([all[i]] + Without(all[i + 1..], drop)) == kept + [all[i]] + Without(all[i + 1..], drop);
          kept := kept + [all[i]];
        }
      }
      WithoutEnd(all, drop);
      assert kept == Without(all, drop);
      WithoutTable(all, drop);
      grants := kept;
      NumberedAlike(old(State()), State());
    }

    /** A new instruction ends every scoped approval of a call; directories and exact grants stay. */
    method ClearSimilar() returns (changed: bool)
      requires Valid()
      modifies this`grants
      ensures Valid() && (changed <==> exists g :: g in old(grants) && g.scope.Some? && g.directory.None?)
      ensures forall g :: g in grants <==> g in old(grants) && !(g.scope.Some? && g.directory.None?)
    {
      changed := DeleteWhere((g: Grant) => Scoped(g));
    }

    function WithSaved(gs: seq<Grant>, workspace: string, records: seq<(Directory, int)>): seq<Grant> {
      if records == [] then gs
      else
        var (directory, at) := records[|records| - 1];
        Put(WithSaved(gs, workspace, records[..|records| - 1]), DirectoryGrant(directory, None, Some(workspace), at))
    }

    /** The saved directories become exactly those of the store; every other grant stays. */
    method RefreshSaved(workspace: string, records: seq<(Directory, int)>)
      requires Valid()
      modifies this`grants
      ensures Valid() && grants == WithSaved(Without(old(grants), (g: Grant) => Filled(g.savedFor)), workspace, records)
    {
      hide Numbered, Keyed, Hex64;
      var _ := DeleteWhere((g: Grant) => Filled(g.savedFor));
      ghost var kept := grants;
      for i := 0 to |records|
        invariant Valid() && grants == WithSaved(kept, workspace, records[..i])
      {
        assert records[..i + 1][..i] == records[..i];
        var (directory, at) := records[i];
        var _ := ApproveDirectory(directory, None, Some(workspace), at);
      }
      assert records[..|records|] == records;
    }

    function SavedGrant(record: (Directory, int), workspace: string): Grant {
      DirectoryGrant(record.0, None, Some(workspace), record.1)
    }

    /**
      After a refresh the saved grants are those of the store's records, each record has one, and no
      other grant is gone.
     */
    lemma {:induction false} RefreshedSaved(gs: seq<Grant>, workspace: string, records: seq<(Directory, int)>)
      requires DistinctKeys(gs) && workspace != "" && forall g :: g in gs ==> !Filled(g.savedFor)
      ensures var r := WithSaved(gs, workspace, records);
        && DistinctKeys(r) && (forall g :: g in gs ==> HasGrant(r, g.key))
        && (forall x :: x in records ==> HasGrant(r, SavedGrant(x, workspace).key))
        && (forall g :: g in r && Filled(g.savedFor) ==> exists x :: x in records && g == SavedGrant(x, workspace))
        && (forall g :: g in r && !Filled(g.savedFor) ==> g in gs)
    {
      if records == [] {
        forall g | g in gs
          ensures HasGrant(gs, g.key)
        {
          Granted(gs, g);
        }
      } else {
        var init, last := records[..|records| - 1], records[|records| - 1];
        assert records == init + [last];
        RefreshedSaved(gs, workspace, init);
        var before, g := WithSaved(gs, workspace, init), SavedGrant(last, workspace);
        PutKeys(before, g);
        PutKeepsKeys(before, g);
        assert Filled(g.savedFor);
        hide DirectoryGrant, HasGrant, DistinctKeys, Put;
      }
    }

    lemma PutKeepsKeys(gs: seq<Grant>, g: Grant)
      ensures HasGrant(Put(gs, g), g.key) && forall k :: HasGrant(gs, k) ==> HasGrant(Put(gs, g), k)
    {
      PutKeys(gs, g);
      var r := Put(gs, g);
      hide Put, DistinctKeys;
      Granted(r, g);
      forall k | HasGrant(gs, k)
        ensures HasGrant(r, k)
      {
        var i :| 0 <= i < |gs| && gs[i].key == k;
        if k != g.key {
          Granted(r, gs[i]);
        }
      }
    }

    // ---- approving ----

    /** The folder whose rejection an approval lifts. */
    function RejectionFolder(d: Denial, cwd: Option<string>): Option<string> {
      var folder := if d.call.cwd.Some? then d.call.cwd else cwd;
      if Filled(folder) then folder else None
    }

    function Lifted(d: Denial, cwd: Option<string>, keys: seq<string>): seq<string> {
      var folder := RejectionFolder(d, cwd);
      if folder.None? then keys
      else
        var key := RejectionKey(d.call.toolName, d.call.input, folder.value, d.call.owner);
        Filter((k: string) => k != key, keys)
    }

    /** The folder that a call is approved in: its owner's, for a child's call. */
    function ApprovalFolder(d: Denial, cwd: Option<string>): Option<string> {
      if d.call.owner.Some? then d.call.owner.value.cwd else cwd
    }

    /** The scope that an approval of a shell command covers, if it covers one. */
    function ApprovedScope(d: Denial, cwd: Option<string>): Option<Scope> {
      var folder := ApprovalFolder(d, cwd);
      if Filled(cwd) && Filled(folder) && IsShell(d.call.toolName) && !Unknown(d.call.owner)
      then scopeOf(d.call.toolName, d.call.input, folder.value) else None
    }

    /** The grants an approval leaves: its directories, or the call's scope, or the exact call. */
    function WithApproval(gs: seq<Grant>, d: Denial, cwd: Option<string>, now: int): seq<Grant> {
      var call, folder := d.call, ApprovalFolder(d, cwd);
      if WithinDirectories(d, cwd) then
        var home := if folder.Some? then folder.value else cwd.value;
        WithScope(gs, call.toolName, call.input, home, call.directories, call.owner, now)
      else
        var similar :=
          if Filled(cwd) && Filled(folder) && IsShell(call.toolName)
          then SimilarGrant(call.toolName, call.input, folder.value, call.owner, now) else None;
        if similar.Some? then Put(gs, similar.value)
        else if HasGrant(gs, KeyOf(d)) then gs
        else gs + [Grant(KeyOf(d), call.toolName, call.input, now, None, None, call.owner, None)]
    }

    /** Grants added on top of others: none of those is lost, and the new ones are the owner's, made now. */
    ghost predicate Extends(r: seq<Grant>, gs: seq<Grant>, owner: Option<Owner>, now: int) {
      && DistinctKeys(r) && (forall g :: g in gs ==> HasGrant(r, g.key))
      && (forall g :: g in r ==> g in gs || (g.owner == owner && g.at == now && g.savedFor.None?))
    }

    lemma PutExtends(gs: seq<Grant>, base: seq<Grant>, g: Grant)
      requires Extends(gs, base, g.owner, g.at) && g.savedFor.None?
      ensures Extends(Put(gs, g), base, g.owner, g.at) && HasGrant(Put(gs, g), g.key)
      ensures forall k :: HasGrant(gs, k) ==> HasGrant(Put(gs, g), k)
    {
      PutKeys(gs, g);
      PutKeepsKeys(gs, g);
      hide Put, DistinctKeys, HasGrant;
    }

    lemma Granted(gs: seq<Grant>, g: Grant)
      requires g in gs
      ensures HasGrant(gs, g.key)
    {
    }

    lemma {:induction false} DirectoriesExtend(gs: seq<Grant>, directories: seq<Directory>, owner: Option<Owner>,
                                               now: int)
      requires DistinctKeys(gs) && !Unknown(owner)
      ensures Extends(WithDirectories(gs, directories, owner, now), gs, owner, now)
      ensures forall d :: d in directories ==>
        HasGrant(WithDirectories(gs, directories, owner, now), DirectoryGrant(d, owner, None, now).key)
    {
      if directories == [] {
        forall g | g in gs
          ensures HasGrant(gs, g.key)
        {
          Granted(gs, g);
        }
      } else {
        var init, last := directories[..|directories| - 1], directories[|directories| - 1];
        assert directories == init + [last];
        DirectoriesExtend(gs, init, owner, now);
        PutExtends(WithDirectories(gs, init, owner, now), gs, DirectoryGrant(last, owner, None, now));
        hide DirectoryGrant, Extends, HasGrant, DistinctKeys;
      }
    }

    /** A grant under the key of a scope, for that scope and its owner. */
    ghost predicate CoversScope(gs: seq<Grant>, scope: Scope, owner: Option<Owner>) {
      exists g :: g in gs &&
        g.key == OwnerKey(scope.key, owner) && g.scope == Some(scope) && Scoped(g) && g.owner == owner
    }

    /**
      What an approval amounts to: every directory it names is granted, or else the scope of a shell
      command that has one, or else the exact call. Nothing granted before is lost, and whatever is new
      belongs to the owner of the denied call: a child's approval reaches nobody else.
     */
    lemma ApprovalGrants(gs: seq<Grant>, d: Denial, cwd: Option<string>, now: int)
      requires DistinctKeys(gs) && !Refused(d)
      ensures Extends(WithApproval(gs, d, cwd, now), gs, d.call.owner, now)
      ensures var r := WithApproval(gs, d, cwd, now);
        if WithinDirectories(d, cwd)
        then forall x :: x in d.call.directories ==> HasGrant(r, DirectoryGrant(x, d.call.owner, None, now).key)
        else if ApprovedScope(d, cwd).Some? then CoversScope(r, ApprovedScope(d, cwd).value, d.call.owner)
        else HasGrant(r, KeyOf(d))
    {
      hide DirectoryGrant, DistinctKeys, Extends, HasGrant, KeyOf, RejectionKey;
      var call, folder := d.call, ApprovalFolder(d, cwd);
      DirectoriesExtend(gs, [], call.owner, now);
      if WithinDirectories(d, cwd) {
        DirectoriesExtend(gs, call.directories, call.owner, now);
        var home := if folder.Some? then folder.value else cwd.value;
        var similar := SimilarGrant(call.toolName, call.input, home, call.owner, now);
        if similar.Some? {
          PutExtends(WithDirectories(gs, call.directories, call.owner, now), gs, similar.value);
        }
      } else if ApprovedScope(d, cwd).Some? {
        var g := SimilarGrant(call.toolName, call.input, folder.value, call.owner, now).value;
        PutExtends(gs, gs, g);
        PutKeys(gs, g);
      } else if !HasGrant(gs, KeyOf(d)) {
        var g := Grant(KeyOf(d), call.toolName, call.input, now, None, None, call.owner, None);
        NewKey(gs, g);
        PutExtends(gs, gs, g);
      }
    }

    lemma NewKey(gs: seq<Grant>, g: Grant)
      requires !HasGrant(gs, g.key)
      ensures Put(gs, g) == gs + [g]
    {
      PutNew(gs, g);
    }

    /** The call is granted: by its scope if the approval covers one, and exactly otherwise. */
    predicate Covered(d: Denial, cwd: Option<string>)
      reads this
    {
      if ApprovedScope(d, cwd).Some?
      then IsSimilarlyGranted(d.call.toolName, d.call.input, ApprovalFolder(d, cwd).value, d.call.owner)
      else IsGranted(d.call.toolName, d.call.input, d.call.owner)
    }

    method Approve(id: string, cwd: Option<string>, now: int) returns (approved: Option<Denial>)
      requires Valid()
      modifies this`denials, this`grants, this`rejected
      ensures Valid()
      ensures approved.None? <==>
        || FindDenial(old(denials), id).None?
        || (var call := old(denials)[FindDenial(old(denials), id).value].call;
            call.incomplete || call.policyDenied || (call.owner.Some? && call.owner.value.sessionId == ""))
      ensures approved.None? ==> State() == old(State())
      ensures approved.Some? ==>
        var i := FindDenial(old(denials), id).value;
        var d := old(denials)[i];
        && approved.value == denials[i]
        && denials == (if cwd.Some? && cwd.value != "" && d.call.directories != []
                       then old(denials)[i := d.(state := Approved)]
          else AllApproved(old(denials), KeyOf(d)))
        && grants == WithApproval(old(grants), d, cwd, now)
        && rejected == Lifted(d, cwd, old(rejected))
        && (!WithinDirectories(d, cwd) ==> Covered(d, cwd))
    {
      hide Numbered, Keyed, Hex64, WithApproval, Lifted, AllApproved;
      var found := FindDenial(denials, id);
      if found.None? || Refused(denials[found.value]) {
        return None;
      }
      var i := found.value;
      var d := denials[i];
      Lift(d, cwd);
      if WithinDirectories(d, cwd) {
        GrantDirectories(d, cwd, now);
        ghost var before := State();
        denials := denials[i := d.(state := Approved)];
        NumberedAlike(before, State());
        KeyedAlike(before, State());
      } else {
        GrantCall(d, cwd, now);
        ApproveAll(KeyOf(d));
      }
      assert i < |denials| by {
        AllApprovedLength(old(denials), KeyOf(d));
      }
      return Some(denials[i]);
    }

    /** An approval lifts the call's rejection. */
    method Lift(d: Denial, cwd: Option<string>)
      requires Valid()
      modifies this`rejected
      ensures Valid() && rejected == Lifted(d, cwd, old(rejected))
      ensures RejectionFolder(d, cwd).Some? ==>
        !WasRejected(d.call.toolName, d.call.input, RejectionFolder(d, cwd).value, d.call.owner)
    {
      hide Numbered, Hex64;
      var folder := RejectionFolder(d, cwd);
      if folder.Some? {
        var key := RejectionKey(d.call.toolName, d.call.input, folder.value, d.call.owner);
        FilterDistinct((k: string) => k != key, rejected);
        rejected := Filter((k: string) => k != key, rejected);
      }
      NumberedAlike(old(State()), State());
    }

    method ApproveAll(key: string)
      requires Valid()
      modifies this`denials
      ensures Valid() && denials == AllApproved(old(denials), key)
    {
      hide Numbered, Hex64;
      for j := 0 to |denials|
        invariant |denials| == |old(denials)|
        invariant forall k :: 0 <= k < |denials| ==>
          denials[k] == if k < j then ApproveKey(old(denials)[k], key) else old(denials)[k]
      {
        denials := denials[j := ApproveKey(denials[j], key)];
      }
      NumberedAlike(old(State()), State());
    }

    method GrantDirectories(d: Denial, cwd: Option<string>, now: int)
      requires Valid() && WithinDirectories(d, cwd)
      modifies this`grants
      ensures Valid() && grants == WithApproval(old(grants), d, cwd, now)
    {
      hide Numbered, Keyed, Hex64;
      var folder := ApprovalFolder(d, cwd);
      RememberScope(d.call.toolName, d.call.input, if folder.Some? then folder.value else cwd.value,
                    d.call.directories, d.call.owner, now);
    }

    method GrantCall(d: Denial, cwd: Option<string>, now: int)
      requires Valid() && !WithinDirectories(d, cwd)
      modifies this`grants
      ensures Valid() && grants == WithApproval(old(grants), d, cwd, now) && Covered(d, cwd)
    {
      hide Numbered, Hex64;
      var call, folder := d.call, ApprovalFolder(d, cwd);
      var similar: Option<Grant> := None;
      if Filled(cwd) && Filled(folder) && IsShell(call.toolName) {
        similar := ApproveSimilar(call.toolName, call.input, folder.value, call.owner, now);
      }
      if similar.None? && !IsGranted(call.toolName, call.input, call.owner) {
        var g := Grant(KeyOf(d), call.toolName, call.input, now, None, None, call.owner, None);
        NewKey(grants, g);
        PutKeepsKeys(grants, g);
        grants := grants + [g];
      }
      NumberedAlike(old(State()), State());
    }

    // ---- saving ----

    /** What is saved gives the ledger back: the same denials, next id and rejections, and the same grants by key. */
    method Snapshot() returns (record: PermissionRecord)
      ensures record == SnapshotOf(State())
      ensures Valid() ==>
        var r := RestoreOf(Some(record));
        r == State().(grants := NewestFirst(grants)) && Numbered(r) && Keyed(r) && Table(r.grants) == Table(grants)
    {
      if Numbered(State()) && Keyed(State()) {
        RestoreUndoesSnapshot(State());
      }
      var keys := if |rejected| > 0 then Some(rejected) else None;
      record := PermissionRecord(keys, Some(denials), Some(NewestFirst(grants)));
    }

    /** Take over a saved record. Its own snapshot leaves the ledger as it was; any record leaves it well keyed. */
    method Restore(record: Option<PermissionRecord>)
      modifies this`denials, this`grants, this`nextId, this`rejected
      ensures State() == RestoreOf(record) && Keyed(State())
      ensures old(Valid()) && record == Some(old(SnapshotOf(State()))) ==>
        Valid() && nextId == old(nextId) && Table(grants) == old(Table(grants))
    {
      hide Numbered, Hex64, Table, NewestFirst, Highest, DigestsIn, MapOf;
      RestoredIsKeyed(record);
      ghost var before := State();
      rejected := if record.Some? && record.value.rejected.Some? then DigestsIn(record.value.rejected.value) else [];
      denials := if record.Some? && record.value.denials.Some? then Prefix(record.value.denials.value, DENIAL_LIMIT)
        else [];
      grants := if record.Some? && record.value.grants.Some? then MapOf(record.value.grants.value) else [];
      nextId := Highest(denials) + 1;
      if Numbered(before) && Keyed(before) {
        RestoreUndoesSnapshot(before);
      }
    }
  }

  lemma RecordNumbered(l: LedgerData.Ledger, d: Denial)
    requires Numbered(l) && d.id == Id(l.nextId)
    ensures Numbered(LedgerData.Ledger(Prefix([d] + l.denials, DENIAL_LIMIT), l.grants, l.nextId + 1, l.rejected))
    ensures forall i :: 0 <= i < |l.denials| ==> l.denials[i].id != d.id
  {
    hide Id, IdNumber;
    IdReadsBack(l.nextId);
    forall i | 0 <= i < |l.denials|
      ensures l.denials[i].id != d.id
    {
      IdReadsBack(l.nextId - 1 - i);
    }
  }

  lemma WithoutTable(gs: seq<Grant>, drop: Grant -> bool)
    requires DistinctKeys(gs)
    ensures DistinctKeys(Without(gs, drop))
    ensures forall k :: k in Table(Without(gs, drop)) <==> k in Table(gs) && !drop(Table(gs)[k])
    ensures forall k :: k in Table(Without(gs, drop)) ==> Table(Without(gs, drop))[k] == Table(gs)[k]
  {
    FilterKeys(gs, (g: Grant) => !drop(g));
  }
}
