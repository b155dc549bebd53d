/** What rejections and grants are about, and exactly what an approval grants. */
module LedgerEffects {
  import opened Prelude
  import opened LedgerData
  import opened Ledger
  import DirectoryProposal

  // ---- keys ----

  /** Scopes begin with a word of their own, and no folder is named like the first word of another key. */
  ghost predicate KeysApart(p: PermissionLedger, cwd: string) {
    && Plain(cwd) && cwd !in {"child", "scope"}
    && forall tool, input, folder :: p.scopeOf(tool, input, folder).Some? ==>
      "scope" + NUL <= p.scopeOf(tool, input, folder).value.key
  }

  /** The same owner: none, or the same session in the same folder. */
  predicate SameOwner(a: Option<Owner>, b: Option<Owner>) {
    && a.Some? == b.Some?
    && (a.Some? ==> a.value.sessionId == b.value.sessionId && FolderText(a.value) == FolderText(b.value))
  }

  lemma OwnerKeysDiffer(x: string, a: Option<Owner>, y: string, b: Option<Owner>)
    requires PlainOwner(a) && PlainOwner(b) && OwnerKey(x, a) == OwnerKey(y, b)
    requires !("child" + NUL <= x) && !("child" + NUL <= y)
    ensures SameOwner(a, b) && x == y
  {
    if a.Some? && b.Some? {
      OwnedKeysDiffer(x, a.value, y, b.value);
    } else if a.Some? {
      OwnedKey(x, a.value);
    } else if b.Some? {
      OwnedKey(y, b.value);
    }
  }

  lemma FirstWord(word: string, rest: string, other: string)
    requires Plain(word) && Plain(other) && other + NUL <= word + NUL + rest
    ensures word == other
  {
    var s := word + NUL + rest;
    var tail := s[|other| + 1..];
    assert s == other + NUL + tail;
    FieldsSplit(word, rest, other, tail, '\0');
  }

  lemma NoChild(p: PermissionLedger, toolName: string, input: string, cwd: string)
    requires KeysApart(p, cwd)
    ensures var scope := p.scopeOf(toolName, input, cwd);
      !("child" + NUL <= if scope.Some? then scope.value.key else cwd + NUL + GrantKey(toolName, input, None))
  {
    var scope := p.scopeOf(toolName, input, cwd);
    if scope.Some? {
      assert scope.value.key[0] == 's';
    } else if "child" + NUL <= cwd + NUL + GrantKey(toolName, input, None) {
      FirstWord(cwd, GrantKey(toolName, input, None), "child");
    }
  }

  /**
    Two rejections are about the same text only if they have the same owner, and the same reusable scope, or
    else are the same call in the same folder: rejecting one call rejects no other.
   */
  lemma RejectionsDiffer(p: PermissionLedger, toolA: string, inputA: string, cwdA: string, a: Option<Owner>,
                         toolB: string, inputB: string, cwdB: string, b: Option<Owner>)
    requires KeysApart(p, cwdA) && Plain(toolA) && Plain(inputA) && PlainOwner(a)
    requires KeysApart(p, cwdB) && Plain(toolB) && Plain(inputB) && PlainOwner(b)
    ensures p.RejectionText(toolA, inputA, cwdA, a) == p.RejectionText(toolB, inputB, cwdB, b) <==>
      && SameOwner(a, b)
      && var x, y := p.scopeOf(toolA, inputA, cwdA), p.scopeOf(toolB, inputB, cwdB);
         if x.Some? then y.Some? && x.value.key == y.value.key
         else y.None? && toolA == toolB && inputA == inputB && cwdA == cwdB
  {
    NoChild(p, toolA, inputA, cwdA);
    NoChild(p, toolB, inputB, cwdB);
    var x, y := p.scopeOf(toolA, inputA, cwdA), p.scopeOf(toolB, inputB, cwdB);
    var s := if x.Some? then x.value.key else cwdA + NUL + GrantKey(toolA, inputA, None);
    var t := if y.Some? then y.value.key else cwdB + NUL + GrantKey(toolB, inputB, None);
    if OwnerKey(s, a) == OwnerKey(t, b) {
      OwnerKeysDiffer(s, a, t, b);
      if x.None? && y.None? {
        FieldsSplit(cwdA, GrantKey(toolA, inputA, None), cwdB, GrantKey(toolB, inputB, None), '\0');
        GrantKeysDiffer(toolA, inputA, None, toolB, inputB, None);
      } else if x.None? {
        FirstWord(cwdA, GrantKey(toolA, inputA, None), "scope");
      } else if y.None? {
        FirstWord(cwdB, GrantKey(toolB, inputB, None), "scope");
      }
    }
  }

  /** Where a directory is saved for: nowhere, or a workspace. */
  predicate SameHome(a: Option<string>, b: Option<string>) {
    (a == b && a != Some("")) || (a in {None, Some("")} && b in {None, Some("")})
  }

  lemma TextsDiffer(x: Directory, y: Directory)
    requires DirectoryText(x) == DirectoryText(y)
    ensures x == y
  {
    var v, w := AccessText(x.access) + NUL + x.path, AccessText(y.access) + NUL + y.path;
    FieldsSplit("directory", v, "directory", w, '\0');
    FieldsSplit(AccessText(x.access), x.path, AccessText(y.access), y.path, '\0');
    AccessesDiffer(x.access, y.access);
  }

  lemma AccessesDiffer(a: DirectoryProposal.Access, b: DirectoryProposal.Access)
    requires AccessText(a) == AccessText(b)
    ensures a == b
  {
  }

  lemma HomesDiffer(x: Directory, s: Option<string>, y: Directory, t: Option<string>)
    requires (s.Some? ==> Plain(s.value)) && (t.Some? ==> Plain(t.value))
    requires SavedText(s, DirectoryText(x)) == SavedText(t, DirectoryText(y))
    ensures x == y && SameHome(s, t)
  {
    var v, w := DirectoryText(x), DirectoryText(y);
    assert v[0] == w[0] == 'd';
    if Filled(s) && Filled(t) {
      FieldsSplit("saved", s.value + NUL + v, "saved", t.value + NUL + w, '\0');
      FieldsSplit(s.value, v, t.value, w, '\0');
    }
    hide DirectoryText;
    TextsDiffer(x, y);
  }

  lemma NoChildDirectory(s: Option<string>, x: Directory)
    ensures !("child" + NUL <= SavedText(s, DirectoryText(x)))
  {
    assert SavedText(s, DirectoryText(x))[0] in {'s', 'd'};
  }

  /**
    Directory grants have the same key only for the same directory and access, the same owner and the
    same workspace.
   */
  lemma DirectoryKeysDiffer(p: PermissionLedger, x: Directory, a: Option<Owner>, s: Option<string>,
                            y: Directory, b: Option<Owner>, t: Option<string>, now: int, later: int)
    requires PlainOwner(a) && PlainOwner(b) && (s.Some? ==> Plain(s.value)) && (t.Some? ==> Plain(t.value))
    ensures p.DirectoryGrant(x, a, s, now).key == p.DirectoryGrant(y, b, t, later).key <==>
      x == y && SameOwner(a, b) && SameHome(s, t)
  {
    var v, w := SavedText(s, DirectoryText(x)), SavedText(t, DirectoryText(y));
    NoChildDirectory(s, x);
    NoChildDirectory(t, y);
    hide DirectoryText, Plain;
    if OwnerKey(v, a) == OwnerKey(w, b) {
      OwnerKeysDiffer(v, a, w, b);
      HomesDiffer(x, s, y, t);
    }
  }

  // ---- what an approval grants ----

  /** A grant of one of these directories, to that owner. */
  predicate OfDirectory(g: Grant, directories: seq<Directory>, owner: Option<Owner>, now: int) {
    g.directory.Some? && g.directory.value in directories && g.owner == owner && g.at == now && g.savedFor.None?
  }

  /** A grant of the reusable scope of a call, to that owner. */
  predicate OfScope(p: PermissionLedger, g: Grant, toolName: string, input: string, folder: string,
                    owner: Option<Owner>, now: int) {
    && g.scope.Some? && g.scope == p.scopeOf(toolName, input, folder) && g.toolName == toolName && g.input == input
    && g.owner == owner && g.at == now && g.directory.None? && g.savedFor.None?
  }

  /** A child whose session is known, or the session itself. */
  predicate Known(owner: Option<Owner>) {
    owner.Some? ==> owner.value.sessionId != ""
  }

  /** Whether a combined approval covers the call besides its directories. */
  predicate CoversCall(toolName: string, directories: seq<Directory>, owner: Option<Owner>) {
    && Known(owner) && (owner.Some? ==> owner.value.cwd.Some? && owner.value.cwd.value != "")
    && (directories == [] || toolName in {"bash", "bg_run"})
  }

  predicate Remembers(p: PermissionLedger, g: Grant, toolName: string, input: string, folder: string,
                      directories: seq<Directory>, owner: Option<Owner>, now: int) {
    || (Known(owner) && OfDirectory(g, directories, owner, now))
    || (CoversCall(toolName, directories, owner) && OfScope(p, g, toolName, input, folder, owner, now))
  }

  lemma {:induction false} DirectoriesOnly(p: PermissionLedger, gs: seq<Grant>, directories: seq<Directory>,
                                           owner: Option<Owner>, now: int)
    ensures forall g :: g in p.WithDirectories(gs, directories, owner, now) ==>
      g in gs || (Known(owner) && OfDirectory(g, directories, owner, now))
  {
    if directories != [] && Known(owner) {
      var init, last := directories[..|directories| - 1], directories[|directories| - 1];
      assert directories == init + [last];
      DirectoriesOnly(p, gs, init, owner, now);
      PutKeys(p.WithDirectories(gs, init, owner, now), p.DirectoryGrant(last, owner, None, now));
    }
  }

  /**
    A combined approval grants, of what was not granted before, its directories, and the scope of the call if
    it covers that, and nothing else; a child whose session is not known is granted nothing.
   */
  lemma RememberedOnly(p: PermissionLedger, gs: seq<Grant>, toolName: string, input: string, cwd: string,
                       directories: seq<Directory>, owner: Option<Owner>, now: int)
    ensures var r := p.WithScope(gs, toolName, input, cwd, directories, owner, now);
      && (forall g :: g in r ==> g in gs || Remembers(p, g, toolName, input, cwd, directories, owner, now))
      && (CoversCall(toolName, directories, owner) && p.scopeOf(toolName, input, cwd).Some? ==>
            exists g :: g in r && OfScope(p, g, toolName, input, cwd, owner, now))
  {
    DirectoriesOnly(p, gs, directories, owner, now);
    var some := p.WithDirectories(gs, directories, owner, now);
    hide PermissionLedger.WithDirectories;
    var similar := p.SimilarGrant(toolName, input, cwd, owner, now);
    if similar.Some? {
      PutKeys(some, similar.value);
      assert OfScope(p, similar.value, toolName, input, cwd, owner, now);
    }
    hide OwnerKey, Put;
  }

  function Text(t: Option<string>): string {
    if t.Some? then t.value else ""
  }

  /** The folder a call is approved in: that of the child it came from, or the session's. */
  function FolderOf(d: Denial, cwd: Option<string>): string {
    if d.call.owner.Some? then Text(d.call.owner.value.cwd) else Text(cwd)
  }

  /** Whether an approval is for the scope of the call: that of a shell command in a known folder. */
  predicate ForScope(p: PermissionLedger, d: Denial, cwd: Option<string>) {
    && Text(cwd) != "" && FolderOf(d, cwd) != "" && d.call.toolName in {"bash", "bg_run"} && Known(d.call.owner)
    && p.scopeOf(d.call.toolName, d.call.input, FolderOf(d, cwd)).Some?
  }

  /** A grant of exactly this call, to its owner. */
  predicate OfCall(g: Grant, d: Denial, now: int) {
    && g.key == GrantKey(d.call.toolName, d.call.input, d.call.owner) && g.toolName == d.call.toolName
    && g.input == d.call.input && g.owner == d.call.owner && g.at == now
    && g.scope.None? && g.directory.None? && g.savedFor.None?
  }

  /** Where the directories of a call are approved, the approval is remembered in this folder. */
  function Home(d: Denial, cwd: Option<string>): string {
    if d.call.owner.Some? && d.call.owner.value.cwd.Some? then d.call.owner.value.cwd.value else Text(cwd)
  }

  predicate ApprovedBy(p: PermissionLedger, g: Grant, d: Denial, cwd: Option<string>, now: int) {
    if Text(cwd) != "" && d.call.directories != []
    then Remembers(p, g, d.call.toolName, d.call.input, Home(d, cwd), d.call.directories, d.call.owner, now)
    else if ForScope(p, d, cwd)
    then OfScope(p, g, d.call.toolName, d.call.input, FolderOf(d, cwd), d.call.owner, now)
    else OfCall(g, d, now)
  }

  /**
    An approval grants nothing but what it says: the directories of the call (and its scope where that is
    covered) if it names any; else the scope of a shell command that has one; else the exact call.
   */
  lemma ApprovalOnly(p: PermissionLedger, gs: seq<Grant>, d: Denial, cwd: Option<string>, now: int)
    ensures forall g :: g in p.WithApproval(gs, d, cwd, now) ==> g in gs || ApprovedBy(p, g, d, cwd, now)
  {
    var call := d.call;
    RememberedOnly(p, gs, call.toolName, call.input, Home(d, cwd), call.directories, call.owner, now);
    var similar := p.SimilarGrant(call.toolName, call.input, FolderOf(d, cwd), call.owner, now);
    if similar.Some? {
      PutKeys(gs, similar.value);
    }
    hide OwnerKey, Put, Remembers, PermissionLedger.WithScope;
  }

  /**
    An approval without directories approves, of the denials that are open, exactly those of the same
    call and owner.
   */
  lemma ApprovedAlike(denials: seq<Denial>, d: Denial, i: nat)
    requires i < |denials| && PlainCall(d.call) && PlainCall(denials[i].call)
    ensures var e, n := denials[i], AllApproved(denials, KeyOf(d));
      && |n| == |denials|
      && n[i] == if e.state == Open && e.call.toolName == d.call.toolName && e.call.input == d.call.input
                    && SameOwner(e.call.owner, d.call.owner)
                 then e.(state := Approved) else e
  {
    var e := denials[i];
    if KeyOf(e) == KeyOf(d) {
      GrantKeysDiffer(e.call.toolName, e.call.input, e.call.owner, d.call.toolName, d.call.input, d.call.owner);
    }
  }

  predicate PlainCall(call: Blocked) {
    Plain(call.toolName) && Plain(call.input) && PlainOwner(call.owner)
  }

  /**
    An approval lifts the rejection of the call, in the folder it was blocked in or else the session's,
    and no other.
   */
  lemma LiftedOnly(p: PermissionLedger, d: Denial, cwd: Option<string>, keys: seq<string>, key: string)
    ensures var folder := if d.call.cwd.Some? then d.call.cwd.value else Text(cwd);
      key in p.Lifted(d, cwd, keys) <==>
        key in keys
        && (folder == "" || key != p.RejectionKey(d.call.toolName, d.call.input, folder, d.call.owner))
  {
  }

  // ---- what is taken over ----

  /** Sixty-four hexadecimal digits. */
  predicate Digest(key: string) {
    |key| == 64 && forall c :: c in key ==> '0' <= c <= '9' || 'a' <= c <= 'f'
  }

  lemma DigestsAreHex(key: string)
    ensures Digest(key) <==> Hex64(key)
  {
    if Digest(key) {
      assert forall i :: 0 <= i < |key| ==> key[i] in key;
    }
  }

  /** A saved record is taken over: digests, the newest fifty denials, and the last grant of each key. */
  lemma RestoresWhatWasSaved(record: PermissionRecord, key: string, g: Grant)
    ensures var l := RestoreOf(Some(record));
      && (key in l.rejected <==> record.rejected.Some? && key in record.rejected.value && Digest(key))
      && (if record.denials.None? then l.denials == []
          else if |record.denials.value| <= 50 then l.denials == record.denials.value
          else l.denials == record.denials.value[..50])
      && (g in l.grants <==> record.grants.Some? && exists i: nat :: LastAt(record.grants.value, i, g))
  {
    if record.grants.Some? {
      MapOfLast(record.grants.value, g);
    }
    DigestsAreHex(key);
    hide MapOf, Highest, Hex64, Digest;
  }
}
