/** Checking a model's proposal of directory access against the directories a call asked for. */
module DirectoryProposal {
  import opened Prelude

  datatype Access = Read | Write | Execute | ReadExecute | WriteExecute

  datatype Directory = Directory(path: string, access: Access)

  datatype Candidate = Candidate(path: string, access: Access, folders: Option<seq<string>>, readRequired: Option<bool>)

  /** A field of an untyped row: absent or null, an integer, or anything else. */
  datatype Field = Nothing | Integer(value: int) | Other

  datatype Row = NotARow | Row(candidate: Field, access: string, folder: Field, otherKeys: bool)

  predicate Writable(a: Access) {
    a == Write || a == WriteExecute
  }

  function AccessOf(s: string): Option<Access> {
    if s == "read" then Some(Read)
    else if s == "write" then Some(Write)
    else if s == "execute" then Some(Execute)
    else if s == "read-execute" then Some(ReadExecute)
    else if s == "write-execute" then Some(WriteExecute)
    else None
  }

  predicate ControlFree(s: string) {
    forall i :: 0 <= i < |s| ==> !(s[i] <= '\U{001F}' || s[i] == '\U{007F}')
  }

  /** A file's folder that a directory can be narrowed to: another one, inside it, that can be printed. */
  predicate Narrows(parent: Option<string>, path: string, isInside: (string, string) -> bool) {
    && parent.Some? && parent.value != "" && ControlFree(parent.value)
    && parent.value != path && isInside(parent.value, path)
  }

  /** The file's folder is another one, inside the directory, and is not empty and has no control character. */
  predicate Offers(parent: Option<string>, path: string, isInside: (string, string) -> bool) {
    && parent.Some? && parent.value !in {"", path} && isInside(parent.value, path)
    && forall c :: c in parent.value ==> '\U{0020}' <= c && c != '\U{007F}'
  }

  lemma OffersNarrowing(parent: Option<string>, isInside: (string, string) -> bool)
    ensures forall path: string :: Offers(parent, path, isInside) <==> Narrows(parent, path, isInside)
  {
    if parent.Some? && forall c :: c in parent.value ==> '\U{0020}' <= c && c != '\U{007F}' {
      assert forall i :: 0 <= i < |parent.value| ==> parent.value[i] in parent.value;
    }
  }

  /**
    The directories as candidates, each with its own path first among its folders; the file's folder is the
    only other one, offered where it is inside the directory and holds no control character.
   */
  function Candidates(directories: seq<Directory>, shell: bool, parent: Option<string>,
                      isInside: (string, string) -> bool)
      : (cs: seq<Candidate>)
    ensures |cs| == |directories|
    ensures forall i :: 0 <= i < |cs| ==>
      && cs[i].path == directories[i].path && cs[i].access == directories[i].access
      && cs[i].readRequired == Some(!shell)
      && PathOf(cs[i], 0) == (if cs[i].path != "" then Some(cs[i].path) else None)
      && (forall k: nat :: k > 0 ==>
            PathOf(cs[i], k) == if k == 1 && Offers(parent, cs[i].path, isInside) then parent else None)
  {
    OffersNarrowing(parent, isInside);
    seq(|directories|, i requires 0 <= i < |directories| =>
      var d := directories[i];
      Candidate(d.path, d.access,
                Some(if Narrows(parent, d.path, isInside) then [d.path, parent.value] else [d.path]),
                Some(!shell)))
  }

  function FolderOf(row: Row): Option<nat>
    requires row.Row?
  {
    match row.folder
    case Nothing => Some(0)
    case Integer(n) => if n < 0 then None else Some(n)
    case Other => None
  }

  function PathOf(c: Candidate, folder: nat): Option<string> {
    var path :=
      if c.folders.Some? then
        if folder < |c.folders.value| then Some(c.folders.value[folder]) else None
      else if folder == 0 then Some(c.path) else None;
    if path.Some? && path.value != "" then path else None
  }

  /** What a row grants: nothing if it names no candidate, narrows writing away, or names no folder of the candidate. */
  function Granted(row: Row, candidates: seq<Candidate>): Option<Directory> {
    if row.NotARow? || row.otherKeys || !row.candidate.Integer? then None
    else
      var access := AccessOf(row.access);
      var at := row.candidate.value;
      if access.None? || at < 0 || |candidates| <= at then None
      else
        var c := candidates[at];
        if Writable(c.access) && !Writable(access.value) then None
        else if c.access == Read && c.readRequired != Some(false) && access.value == Execute then None
        else
          var folder := FolderOf(row);
          var path := if folder.None? then None else PathOf(c, folder.value);
          if path.None? then None else Some(Directory(path.value, access.value))
  }

  /** As many rows as candidates, each granting something, and no candidate named twice. */
  ghost predicate Accepted(rows: seq<Row>, candidates: seq<Candidate>) {
    && rows != [] && |rows| == |candidates|
    && (forall i :: 0 <= i < |rows| ==> Granted(rows[i], candidates).Some?)
    && (forall i, j :: 0 <= i < j < |rows| ==> rows[i].candidate.value != rows[j].candidate.value)
  }

  /** `value` is the proposal's list of rows, when it has one. */
  method ValidateDirectoryProposal(value: Option<seq<Row>>, candidates: seq<Candidate>)
    returns (result: Option<seq<Directory>>)
    ensures result.Some? <==> value.Some? && Accepted(value.value, candidates)
    ensures result.Some? ==> |result.value| == |value.value|
    ensures result.Some? ==> forall i :: 0 <= i < |result.value| ==>
      Granted(value.value[i], candidates) == Some(result.value[i])
  {
    if value.None? {
      return None;
    }
    var rows := value.value;
    if |rows| != |candidates| || rows == [] {
      return None;
    }
    var seen: set<int>, granted: seq<Directory> := {}, [];
    for i := 0 to |rows|
      invariant |granted| == i && forall j :: 0 <= j < i ==> Granted(rows[j], candidates) == Some(granted[j])
      invariant forall c :: c in seen <==> exists j :: 0 <= j < i && rows[j].candidate.value == c
      invariant forall j, k :: 0 <= j < k < i ==> rows[j].candidate.value != rows[k].candidate.value
    {
      var row := rows[i];
      if row.NotARow? || row.otherKeys {
        return None;
      }
      var access := AccessOf(row.access);
      if !row.candidate.Integer? || row.candidate.value in seen || access.None? {
        return None;
      }
      var at := row.candidate.value;
      if at < 0 || |candidates| <= at || (Writable(candidates[at].access) && !Writable(access.value)) {
        return None;
      }
      if candidates[at].access == Read && candidates[at].readRequired != Some(false) && access.value == Execute {
        return None;
      }
      var folder := FolderOf(row);
      if folder.None? {
        return None;
      }
      var path := PathOf(candidates[at], folder.value);
      if path.None? {
        return None;
      }
      seen := seen + {at};
      granted := granted + [Directory(path.value, access.value)];
    }
    return Some(granted);
  }

  // ---- what an accepted proposal grants ----

  lemma {:induction false} SetBelow(s: set<int>, n: nat)
    requires forall x :: x in s ==> 0 <= x < n
    ensures |s| <= n && (|s| == n ==> forall x :: 0 <= x < n ==> x in s)
  {
    if n > 0 {
      SetBelow(s - {n - 1}, n - 1);
      assert n - 1 !in s ==> s - {n - 1} == s;
    } else {
      assert forall x :: x !in s;
      assert s == {};
    }
  }

  /** Every candidate is granted by exactly one row: equally many rows as candidates, and none named twice. */
  lemma AcceptedIsBijection(rows: seq<Row>, candidates: seq<Candidate>)
    requires Accepted(rows, candidates)
    ensures forall c :: 0 <= c < |candidates| ==> GrantedBySome(rows, c)
    ensures forall i, j, c :: Grants(rows, i, c) && Grants(rows, j, c) ==> i == j
    ensures forall i :: 0 <= i < |rows| ==> rows[i].Row? && 0 <= rows[i].candidate.value < |candidates|
  {
    var named := seq(|rows|, i requires 0 <= i < |rows| => rows[i].candidate.value);
    var all := set x | x in named;
    forall i, j | 0 <= i < j < |named|
      ensures named[i] != named[j]
    {
    }
    SetSize(named);
    SetBelow(all, |candidates|);
    forall c | 0 <= c < |candidates|
      ensures GrantedBySome(rows, c)
    {
      assert c in all;
      var i :| 0 <= i < |named| && named[i] == c;
      assert Grants(rows, i, c);
    }
  }

  ghost predicate GrantedBySome(rows: seq<Row>, c: int) {
    exists i :: Grants(rows, i, c)
  }

  predicate Grants(rows: seq<Row>, i: int, c: int) {
    0 <= i < |rows| && rows[i].Row? && rows[i].candidate == Integer(c)
  }

  /** A row grants one of its candidate's own folders, and may widen its access but not take writing away. */
  lemma GrantedWithin(row: Row, candidates: seq<Candidate>)
    requires Granted(row, candidates).Some?
    ensures var d := Granted(row, candidates).value;
      var c := candidates[row.candidate.value];
      && (if c.folders.Some? then d.path in c.folders.value else d.path == c.path) && d.path != ""
      && (Writable(c.access) ==> Writable(d.access))
      && (c.access == Read && c.readRequired != Some(false) ==> d.access != Execute)
  {
    var c := candidates[row.candidate.value];
    if c.folders.Some? {
      assert c.folders.value[FolderOf(row).value] == Granted(row, candidates).value.path;
    }
  }

  /** The name by which a row asks for an access. */
  function NameOf(a: Access): string {
    match a
    case Read => "read"
    case Write => "write"
    case Execute => "execute"
    case ReadExecute => "read-execute"
    case WriteExecute => "write-execute"
  }

  /** A row with these fields alone, naming the access to be granted, no folder for the first one. */
  predicate Asks(row: Row, at: nat, k: nat, access: Access) {
    && row.Row? && !row.otherKeys && row.candidate == Integer(at) && row.access == NameOf(access)
    && (row.folder == Integer(k) || (row.folder == Nothing && k == 0))
  }

  /** The k-th folder of a candidate, or its path when it lists none, may be granted with that access. */
  predicate MayGrant(c: Candidate, k: nat, d: Directory) {
    && (if c.folders.Some? then k < |c.folders.value| && d.path == c.folders.value[k] else k == 0 && d.path == c.path)
    && d.path != ""
    && (c.access in {Write, WriteExecute} ==> d.access in {Write, WriteExecute})
    && !(c.access == Read && d.access == Execute && c.readRequired != Some(false))
  }

  ghost predicate GrantsAs(row: Row, candidates: seq<Candidate>, at: nat, k: nat, d: Directory) {
    at < |candidates| && Asks(row, at, k, d.access) && MayGrant(candidates[at], k, d)
  }

  /**
    What a row grants is the access it names, at the folder it names of the candidate it names, where
    that may be granted.
   */
  lemma GrantsExactly(row: Row, candidates: seq<Candidate>, d: Directory)
    ensures Granted(row, candidates) == Some(d) <==> exists at: nat, k: nat :: GrantsAs(row, candidates, at, k, d)
  {
    NamesRead(d.access);
    if Granted(row, candidates) == Some(d) {
      assert GrantsAs(row, candidates, row.candidate.value, FolderOf(row).value, d);
    }
    if at: nat, k: nat :| GrantsAs(row, candidates, at, k, d) {
      assert AccessOf(row.access) == Some(d.access) && FolderOf(row) == Some(k);
      hide AccessOf, FolderOf;
      assert row.candidate.value == at && PathOf(candidates[at], k) == Some(d.path);
    }
  }

  lemma NamesRead(a: Access)
    ensures forall s :: AccessOf(s) == Some(a) <==> s == NameOf(a)
  {
  }

  /**
    For the directories a call asked for, an accepted proposal grants each exactly once, at its own
    path or at the file's folder inside it, and writable where it was to be written.
   */
  lemma ProposalStaysWithin(rows: seq<Row>, directories: seq<Directory>, shell: bool, parent: Option<string>,
                            isInside: (string, string) -> bool)
    requires Accepted(rows, Candidates(directories, shell, parent, isInside))
    ensures forall k :: 0 <= k < |directories| ==>
      GrantedWithinBySome(rows, k, directories[k], Candidates(directories, shell, parent, isInside), isInside)
  {
    var candidates := Candidates(directories, shell, parent, isInside);
    AcceptedIsBijection(rows, candidates);
    forall k | 0 <= k < |directories|
      ensures GrantedWithinBySome(rows, k, directories[k], candidates, isInside)
    {
      assert GrantedBySome(rows, k);
      var i :| Grants(rows, i, k);
      GrantedWithin(rows[i], candidates);
      assert Within(rows, i, directories[k], candidates, isInside);
    }
  }

  ghost predicate GrantedWithinBySome(rows: seq<Row>, k: int, d: Directory, candidates: seq<Candidate>,
                                      isInside: (string, string) -> bool) {
    exists i :: Grants(rows, i, k) && Within(rows, i, d, candidates, isInside)
  }

  ghost predicate Within(rows: seq<Row>, i: int, d: Directory, candidates: seq<Candidate>,
                         isInside: (string, string) -> bool) {
    && 0 <= i < |rows| && Granted(rows[i], candidates).Some?
    && var g := Granted(rows[i], candidates).value;
      && (g.path == d.path || isInside(g.path, d.path))
      && (Writable(d.access) ==> Writable(g.access))
  }
}
