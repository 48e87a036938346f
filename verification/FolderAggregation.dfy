/** The folders of the sidebar and their unread badges (src/lib/folderAggregation.ts), for
    one account or combined over all. Folders without a role are ordered by an arbitrary
    rank, standing for the sort order and the locale's comparison of names. */
module FolderAggregation {
  import opened Basics
  import opened Sequences

  datatype Role = Inbox | Sent | Archive | Drafts | Trash | Spam

  datatype Folder = Folder(id: string, role: Option<Role>, name: string, sortOrder: int)

  type Counts = map<string, nat>

  type Rank = Folder -> int

  const ALL_ACCOUNTS_FOLDER_PREFIX := "all:"
  const SYSTEM_ROLE_ORDER: seq<Role> := [Inbox, Sent, Archive, Drafts, Trash, Spam]

  // ---------------------------------------------------------------- virtual folders

  function RoleId(role: Role): string {
    match role
    case Inbox => "inbox"
    case Sent => "sent"
    case Archive => "archive"
    case Drafts => "drafts"
    case Trash => "trash"
    case Spam => "spam"
  }

  function RoleName(role: Role): string {
    match role
    case Inbox => "Inbox"
    case Sent => "Sent"
    case Archive => "Archive"
    case Drafts => "Drafts"
    case Trash => "Trash"
    case Spam => "Spam"
  }

  function AllAccountsFolderId(role: Role): string { ALL_ACCOUNTS_FOLDER_PREFIX + RoleId(role) }

  predicate IsAllAccountsFolderId(id: string) { ALL_ACCOUNTS_FOLDER_PREFIX <= id }

  function RoleNamed(name: string, roles: seq<Role>): Option<Role> {
    if roles == [] then None else if RoleId(roles[0]) == name then Some(roles[0]) else RoleNamed(name, roles[1..])
  }

  function RoleFromId(id: string): Option<Role> {
    if IsAllAccountsFolderId(id) then RoleNamed(id[|ALL_ACCOUNTS_FOLDER_PREFIX|..], SYSTEM_ROLE_ORDER) else None
  }

  lemma {:induction false} RoleNamedIff(name: string, roles: seq<Role>, role: Role)
    ensures RoleNamed(name, roles) == Some(role) <==> role in roles && name == RoleId(role)
  {
    if roles == [] {
    } else {
      RoleNamedIff(name, roles[1..], role);
      RoleIdsDiffer(roles[0], role);
    }
  }

  lemma RoleIdsDiffer(a: Role, b: Role)
    ensures RoleId(a) == RoleId(b) <==> a == b
  {
    assert |"inbox"| == 5 && |"trash"| == 5 && "inbox"[0] != "trash"[0];
    assert |"sent"| == 4 && |"spam"| == 4 && "sent"[1] != "spam"[1];
    assert |"archive"| == 7 && |"drafts"| == 6;
  }

  /** A virtual id names its role, and only a virtual id does. */
  lemma VirtualIdRoundTrip(id: string, role: Role)
    ensures RoleFromId(id) == Some(role) <==> id == AllAccountsFolderId(role)
  {
    assert role in SYSTEM_ROLE_ORDER by {
      assert SYSTEM_ROLE_ORDER[0] == Inbox && SYSTEM_ROLE_ORDER[1] == Sent && SYSTEM_ROLE_ORDER[2] == Archive;
      assert SYSTEM_ROLE_ORDER[3] == Drafts && SYSTEM_ROLE_ORDER[4] == Trash && SYSTEM_ROLE_ORDER[5] == Spam;
    }
    if IsAllAccountsFolderId(id) {
      RoleNamedIff(id[|ALL_ACCOUNTS_FOLDER_PREFIX|..], SYSTEM_ROLE_ORDER, role);
      assert id == ALL_ACCOUNTS_FOLDER_PREFIX + id[|ALL_ACCOUNTS_FOLDER_PREFIX|..];
    }
    assert AllAccountsFolderId(role)[..4] == ALL_ACCOUNTS_FOLDER_PREFIX;
    assert AllAccountsFolderId(role)[4..] == RoleId(role);
  }

  // ---------------------------------------------------------------- what is shown

  predicate IsCustom(f: Folder) { f.role.None? }

  function OfRole(role: Role): Folder -> bool { (f: Folder) => f.role == Some(role) }

  predicate HasRole(folders: seq<Folder>, role: Role) {
    exists i :: 0 <= i < |folders| && folders[i].role == Some(role)
  }

  function Virtual(role: Role, index: nat): Folder {
    Folder(AllAccountsFolderId(role), Some(role), RoleName(role), index)
  }

  function VirtualFolders(folders: seq<Folder>, roles: seq<Role>, index: nat): seq<Folder> {
    if roles == [] then []
    else if HasRole(folders, roles[0])
    then [Virtual(roles[0], index)] + VirtualFolders(folders, roles[1..], index + 1)
    else VirtualFolders(folders, roles[1..], index)
  }

  function BuildAllAccountsFolders(folders: seq<Folder>, rank: Rank): seq<Folder> {
    VirtualFolders(folders, SYSTEM_ROLE_ORDER, 0) + SortByKey(Keep(folders, IsCustom), rank)
  }

  function FirstOfRole(folders: seq<Folder>, role: Role): Option<Folder> {
    if folders == [] then None
    else if folders[0].role == Some(role) then Some(folders[0])
    else FirstOfRole(folders[1..], role)
  }

  function OneOfRole(folders: seq<Folder>, role: Role): seq<Folder> {
    var first := FirstOfRole(folders, role);
    if first.Some? then [first.value] else []
  }

  function FirstOfRoles(folders: seq<Folder>, roles: seq<Role>): seq<Folder> {
    if roles == [] then [] else OneOfRole(folders, roles[0]) + FirstOfRoles(folders, roles[1..])
  }

  function SortFoldersForSidebar(folders: seq<Folder>, rank: Rank): seq<Folder> {
    FirstOfRoles(folders, SYSTEM_ROLE_ORDER) + SortByKey(Keep(folders, IsCustom), rank)
  }

  lemma {:induction false} FirstOfRoleSnoc(folders: seq<Folder>, f: Folder, role: Role)
    ensures FirstOfRole(folders + [f], role)
            == if FirstOfRole(folders, role).None? && f.role == Some(role) then Some(f) else FirstOfRole(folders, role)
  {
    if folders == [] {
      assert [f][1..] == [] && folders + [f] == [f];
    } else {
      assert (folders + [f])[1..] == folders[1..] + [f];
      FirstOfRoleSnoc(folders[1..], f, role);
    }
  }

  ghost predicate IsFirstTable(table: map<Role, Folder>, folders: seq<Folder>) {
    forall role :: (if role in table then Some(table[role]) else None) == FirstOfRole(folders, role)
  }

  /** The pass that splits the folders. */
  method SplitFolders(folders: seq<Folder>) returns (firstByRole: map<Role, Folder>, custom: seq<Folder>)
    ensures custom == Keep(folders, IsCustom) && IsFirstTable(firstByRole, folders)
  {
    firstByRole, custom := map[], [];
    for i := 0 to |folders|
      invariant custom == Keep(folders[..i], IsCustom) && IsFirstTable(firstByRole, folders[..i])
    {
      var folder := folders[i];
      assert folders[..i + 1] == folders[..i] + [folder];
      KeepSnoc(folders[..i], folder, IsCustom);
      forall role ensures FirstOfRole(folders[..i + 1], role)
                          == if FirstOfRole(folders[..i], role).None? && folder.role == Some(role) then Some(folder)
                             else FirstOfRole(folders[..i], role)
      {
        FirstOfRoleSnoc(folders[..i], folder, role);
      }
      if folder.role.None? {
        custom := custom + [folder];
      } else if folder.role.value !in firstByRole {
        firstByRole := firstByRole[folder.role.value := folder];
      }
    }
    assert folders[..|folders|] == folders;
  }

  lemma {:induction false} FirstOfRolesSnoc(folders: seq<Folder>, roles: seq<Role>, role: Role)
    ensures FirstOfRoles(folders, roles + [role]) == FirstOfRoles(folders, roles) + OneOfRole(folders, role)
  {
    if roles == [] {
      assert [] + [role] == [role] && [role][1..] == [];
    } else {
      assert (roles + [role])[1..] == roles[1..] + [role];
      FirstOfRolesSnoc(folders, roles[1..], role);
      assert OneOfRole(folders, roles[0]) + (FirstOfRoles(folders, roles[1..]) + OneOfRole(folders, role))
          == (OneOfRole(folders, roles[0]) + FirstOfRoles(folders, roles[1..])) + OneOfRole(folders, role);
    }
  }

  method SystemFolders(folders: seq<Folder>, firstByRole: map<Role, Folder>, roles: seq<Role>)
    returns (system: seq<Folder>)
    requires IsFirstTable(firstByRole, folders)
    ensures system == FirstOfRoles(folders, roles)
  {
    system := [];
    for k := 0 to |roles|
      invariant system == FirstOfRoles(folders, roles[..k])
    {
      assert roles[..k + 1] == roles[..k] + [roles[k]];
      FirstOfRolesSnoc(folders, roles[..k], roles[k]);
      assert (if roles[k] in firstByRole then Some(firstByRole[roles[k]]) else None) == FirstOfRole(folders, roles[k]);
      if roles[k] in firstByRole {
        system := system + [firstByRole[roles[k]]];
      }
    }
    assert roles[..|roles|] == roles;
  }

  method SortForSidebar(folders: seq<Folder>, rank: Rank) returns (sorted: seq<Folder>)
    ensures sorted == SortFoldersForSidebar(folders, rank)
  {
    var firstByRole, custom := SplitFolders(folders);
    var system := SystemFolders(folders, firstByRole, SYSTEM_ROLE_ORDER);
    sorted := system + SortByKey(custom, rank);
  }

  // ---------------------------------------------------------------- the order shown

  /** Where a role stands in the sidebar. */
  function Place(role: Role): nat {
    match role
    case Inbox => 0
    case Sent => 1
    case Archive => 2
    case Drafts => 3
    case Trash => 4
    case Spam => 5
  }

  /** `f` may stand before `g`: roles by their place, then the others by rank. */
  ghost predicate InOrder(f: Folder, g: Folder, rank: Rank) {
    match (f.role, g.role)
    case (Some(a), Some(b)) => Place(a) < Place(b)
    case (Some(_), None) => true
    case (None, Some(_)) => false
    case (None, None) => rank(f) <= rank(g)
  }

  /** The folder is the first of its role. */
  ghost predicate IsFirst(folders: seq<Folder>, f: Folder) {
    exists i :: 0 <= i < |folders| && folders[i] == f && forall j :: 0 <= j < i ==> folders[j].role != f.role
  }

  lemma {:induction false} FirstOfRoleIff(folders: seq<Folder>, f: Folder)
    requires f.role.Some?
    ensures FirstOfRole(folders, f.role.value) == Some(f) <==> IsFirst(folders, f)
  {
    if folders == [] {
    } else {
      FirstOfRoleIff(folders[1..], f);
      if i :| 0 <= i < |folders[1..]| && folders[1..][i] == f
              && forall j :: 0 <= j < i ==> folders[1..][j].role != f.role
      {
        if folders[0].role != f.role {
          assert forall j :: 1 <= j < i + 1 ==> folders[1..][j - 1] == folders[j];
          assert folders[i + 1] == f;
        }
      }
      if i :| 1 <= i < |folders| && folders[i] == f && forall j :: 0 <= j < i ==> folders[j].role != f.role {
        assert forall j :: 0 <= j < i - 1 ==> folders[1..][j] == folders[j + 1];
        assert folders[1..][i - 1] == f;
      }
    }
  }

  ghost predicate Ascending(roles: seq<Role>) {
    forall i, j :: 0 <= i < j < |roles| ==> Place(roles[i]) < Place(roles[j])
  }

  lemma {:induction false} FirstsAre(folders: seq<Folder>, roles: seq<Role>, f: Folder)
    ensures f in FirstOfRoles(folders, roles)
            <==> f.role.Some? && f.role.value in roles && FirstOfRole(folders, f.role.value) == Some(f)
  {
    if roles == [] {
    } else {
      FirstsAre(folders, roles[1..], f);
      FirstHasRole(folders, roles[0]);
      assert f.role.Some? ==> (f.role.value in roles <==> f.role.value == roles[0] || f.role.value in roles[1..]);
    }
  }

  ghost predicate InRoleOrder(shown: seq<Folder>) {
    forall i, j :: 0 <= i < j < |shown| ==>
      shown[i].role.Some? && shown[j].role.Some? && Place(shown[i].role.value) < Place(shown[j].role.value)
  }

  lemma {:induction false} FirstsInOrder(folders: seq<Folder>, roles: seq<Role>)
    requires Ascending(roles)
    ensures InRoleOrder(FirstOfRoles(folders, roles))
  {
    if roles == [] {
    } else {
      FirstsInOrder(folders, roles[1..]);
      FirstHasRole(folders, roles[0]);
      var rest := FirstOfRoles(folders, roles[1..]);
      forall k | 0 <= k < |rest| ensures rest[k].role.Some? && Place(roles[0]) < Place(rest[k].role.value) {
        assert rest[k] in rest;
        FirstsAre(folders, roles[1..], rest[k]);
      }
    }
  }

  lemma {:induction false} FirstHasRole(folders: seq<Folder>, role: Role)
    ensures FirstOfRole(folders, role).Some? ==> FirstOfRole(folders, role).value.role == Some(role)
  {
    if folders != [] { FirstHasRole(folders[1..], role); }
  }

  lemma EveryRole(role: Role)
    ensures role in SYSTEM_ROLE_ORDER && Ascending(SYSTEM_ROLE_ORDER)
  {
    assert SYSTEM_ROLE_ORDER[0] == Inbox && SYSTEM_ROLE_ORDER[1] == Sent && SYSTEM_ROLE_ORDER[2] == Archive;
    assert SYSTEM_ROLE_ORDER[3] == Drafts && SYSTEM_ROLE_ORDER[4] == Trash && SYSTEM_ROLE_ORDER[5] == Spam;
  }

  /** The sidebar shows exactly the first folder of each role and every other folder: inbox,
      sent, archive, drafts, trash and spam in this order, then the others by rank. */
  lemma SidebarOrder(folders: seq<Folder>, rank: Rank)
    ensures var shown := SortFoldersForSidebar(folders, rank);
            && (forall f :: f in shown <==> if f.role.Some? then IsFirst(folders, f) else f in folders)
            && (forall i, j :: 0 <= i < j < |shown| ==> InOrder(shown[i], shown[j], rank))
  {
    var firsts, custom := FirstOfRoles(folders, SYSTEM_ROLE_ORDER), SortByKey(Keep(folders, IsCustom), rank);
    EveryRole(Inbox);
    FirstsInOrder(folders, SYSTEM_ROLE_ORDER);
    SortByKeySorted(Keep(folders, IsCustom), rank);
    forall f ensures f in custom <==> f in folders && f.role.None? {
      InSameMultiset(custom, Keep(folders, IsCustom), f);
    }
    forall f ensures f in firsts <==> f.role.Some? && IsFirst(folders, f) {
      FirstsAre(folders, SYSTEM_ROLE_ORDER, f);
      if f.role.Some? {
        EveryRole(f.role.value);
        FirstOfRoleIff(folders, f);
      }
    }
    assert forall k :: 0 <= k < |firsts| ==> firsts[k] in firsts;
    assert forall k :: 0 <= k < |custom| ==> custom[k] in custom;
  }

  /** The sidebar's folders in either mode. */
  function Shown(folders: seq<Folder>, combined: bool, rank: Rank): seq<Folder> {
    SortFoldersForSidebar(if combined then BuildAllAccountsFolders(folders, rank) else folders, rank)
  }

  // ---------------------------------------------------------------- badges

  function FindFolder(folders: seq<Folder>, id: string): Option<Folder> {
    if folders == [] then None else if folders[0].id == id then Some(folders[0]) else FindFolder(folders[1..], id)
  }

  function CountOf(id: string, counts: Counts): nat { if id in counts then counts[id] else 0 }

  /** The unread messages of folders. */
  function Total(folders: seq<Folder>, counts: Counts): nat {
    if folders == [] then 0 else CountOf(folders[0].id, counts) + Total(folders[1..], counts)
  }

  function SelectedRole(id: string, folders: seq<Folder>): Option<Role> {
    if RoleFromId(id).Some? then RoleFromId(id)
    else
      match FindFolder(folders, id)
      case Some(f) => f.role
      case None => None
  }

  function FoldersForSelection(id: string, folders: seq<Folder>): seq<Folder> {
    if id == "" then []
    else
      match SelectedRole(id, folders)
      case Some(role) => Keep(folders, OfRole(role))
      case None => if FindFolder(folders, id).Some? then [FindFolder(folders, id).value] else []
  }

  function UnreadCountForFolder(id: string, folders: seq<Folder>, counts: Counts): nat {
    Total(FoldersForSelection(id, folders), counts)
  }

  function Badges(shown: seq<Folder>, folders: seq<Folder>, counts: Counts): nat {
    if shown == [] then 0
    else UnreadCountForFolder(shown[0].id, folders, counts) + Badges(shown[1..], folders, counts)
  }

  /** What a badge stands for: all folders of its role, or the folder itself. */
  function Due(f: Folder, folders: seq<Folder>, counts: Counts): nat {
    match f.role
    case Some(role) => Total(Keep(folders, OfRole(role)), counts)
    case None => CountOf(f.id, counts)
  }

  function Dues(shown: seq<Folder>, folders: seq<Folder>, counts: Counts): nat {
    if shown == [] then 0 else Due(shown[0], folders, counts) + Dues(shown[1..], folders, counts)
  }

  // ---------------------------------------------------------------- dues add up

  lemma {:induction false} DuesConcat(a: seq<Folder>, b: seq<Folder>, folders: seq<Folder>, counts: Counts)
    ensures Dues(a + b, folders, counts) == Dues(a, folders, counts) + Dues(b, folders, counts)
  {
    if a == [] {
      assert a + b == b;
    } else {
      assert (a + b)[1..] == a[1..] + b;
      DuesConcat(a[1..], b, folders, counts);
    }
  }

  lemma {:induction false} DuesOfInsert(x: Folder, s: seq<Folder>, rank: Rank, folders: seq<Folder>, counts: Counts)
    ensures Dues(Insert(x, s, rank), folders, counts) == Due(x, folders, counts) + Dues(s, folders, counts)
  {
    if s != [] && rank(x) > rank(s[0]) {
      DuesOfInsert(x, s[1..], rank, folders, counts);
      assert Insert(x, s, rank)[1..] == Insert(x, s[1..], rank);
    } else {
      assert ([x] + s)[1..] == s;
    }
  }

  /** The order of folders does not matter. */
  lemma {:induction false} DuesOfSort(s: seq<Folder>, rank: Rank, folders: seq<Folder>, counts: Counts)
    ensures Dues(SortByKey(s, rank), folders, counts) == Dues(s, folders, counts)
  {
    if s == [] {
    } else {
      DuesOfSort(s[1..], rank, folders, counts);
      DuesOfInsert(s[0], SortByKey(s[1..], rank), rank, folders, counts);
    }
  }

  lemma {:induction false} DuesOfCustom(s: seq<Folder>, folders: seq<Folder>, counts: Counts)
    requires forall f :: f in s ==> IsCustom(f)
    ensures Dues(s, folders, counts) == Total(s, counts)
  {
    if s == [] {
    } else {
      assert s[0] in s && forall f :: f in s[1..] ==> f in s;
      DuesOfCustom(s[1..], folders, counts);
    }
  }

  function RoleTotals(folders: seq<Folder>, roles: seq<Role>, counts: Counts): nat {
    if roles == [] then 0
    else Total(Keep(folders, OfRole(roles[0])), counts) + RoleTotals(folders, roles[1..], counts)
  }

  lemma {:induction false} RoleTotalsCons(f: Folder, rest: seq<Folder>, roles: seq<Role>, counts: Counts)
    requires Distinct(roles)
    ensures RoleTotals([f] + rest, roles, counts)
            == RoleTotals(rest, roles, counts)
               + if f.role.Some? && f.role.value in roles then CountOf(f.id, counts) else 0
  {
    if roles == [] {
    } else {
      RoleTotalsCons(f, rest, roles[1..], counts);
      var p := OfRole(roles[0]);
      assert ([f] + rest)[1..] == rest;
      assert Keep([f] + rest, p) == (if p(f) then [f] else []) + Keep(rest, p);
      assert p(f) ==> ([f] + Keep(rest, p))[1..] == Keep(rest, p);
      assert [] + Keep(rest, p) == Keep(rest, p);
      assert f.role == Some(roles[0]) ==> f.role.value !in roles[1..];
    }
  }

  lemma AllRoles(role: Role)
    ensures role in SYSTEM_ROLE_ORDER && Distinct(SYSTEM_ROLE_ORDER)
  {
    assert SYSTEM_ROLE_ORDER[0] == Inbox && SYSTEM_ROLE_ORDER[1] == Sent && SYSTEM_ROLE_ORDER[2] == Archive;
    assert SYSTEM_ROLE_ORDER[3] == Drafts && SYSTEM_ROLE_ORDER[4] == Trash && SYSTEM_ROLE_ORDER[5] == Spam;
  }

  /** Every folder has one of the roles or none. */
  lemma {:induction false} Partition(folders: seq<Folder>, counts: Counts)
    ensures Total(folders, counts)
            == RoleTotals(folders, SYSTEM_ROLE_ORDER, counts) + Total(Keep(folders, IsCustom), counts)
  {
    if folders == [] {
      NoFolders(SYSTEM_ROLE_ORDER, counts);
    } else {
      var f, rest := folders[0], folders[1..];
      Partition(rest, counts);
      AllRoles(if f.role.Some? then f.role.value else Inbox);
      RoleTotalsCons(f, rest, SYSTEM_ROLE_ORDER, counts);
      assert folders == [f] + rest;
      assert Keep(folders, IsCustom) == (if IsCustom(f) then [f] else []) + Keep(rest, IsCustom);
      assert IsCustom(f) ==> Keep(folders, IsCustom)[1..] == Keep(rest, IsCustom);
      assert [] + Keep(rest, IsCustom) == Keep(rest, IsCustom);
    }
  }

  lemma {:induction false} NoFolders(roles: seq<Role>, counts: Counts)
    ensures RoleTotals([], roles, counts) == 0
  {
    if roles == [] {
    } else {
      NoFolders(roles[1..], counts);
    }
  }

  /** The displayed folders have a folder of exactly the roles that the real folders have. */
  ghost predicate SameRoles(displayed: seq<Folder>, folders: seq<Folder>) {
    forall role :: FirstOfRole(displayed, role).Some? <==> HasRole(folders, role)
  }

  lemma {:induction false} FirstOfRoleIs(folders: seq<Folder>, role: Role)
    ensures FirstOfRole(folders, role).Some? <==> HasRole(folders, role)
    ensures FirstOfRole(folders, role).Some? ==>
              FirstOfRole(folders, role).value in folders && FirstOfRole(folders, role).value.role == Some(role)
  {
    if folders == [] {
    } else {
      FirstOfRoleIs(folders[1..], role);
      assert HasRole(folders, role) <==> folders[0].role == Some(role) || HasRole(folders[1..], role) by {
        if i :| 0 <= i < |folders[1..]| && folders[1..][i].role == Some(role) {
          assert folders[i + 1].role == Some(role);
        }
        if i :| 1 <= i < |folders| && folders[i].role == Some(role) { assert folders[1..][i - 1].role == Some(role); }
      }
    }
  }

  lemma NoneOfRole(folders: seq<Folder>, role: Role, counts: Counts)
    requires !HasRole(folders, role)
    ensures Total(Keep(folders, OfRole(role)), counts) == 0
  {
    var kept := Keep(folders, OfRole(role));
    assert forall i :: 0 <= i < |folders| ==> folders[i].role != Some(role);
    NoElements(kept);
  }

  lemma {:induction false} DuesOfFirsts(displayed: seq<Folder>, folders: seq<Folder>, roles: seq<Role>, counts: Counts)
    requires SameRoles(displayed, folders)
    ensures Dues(FirstOfRoles(displayed, roles), folders, counts) == RoleTotals(folders, roles, counts)
  {
    if roles == [] {
    } else {
      DuesOfFirsts(displayed, folders, roles[1..], counts);
      var first, rest := FirstOfRole(displayed, roles[0]), FirstOfRoles(displayed, roles[1..]);
      FirstOfRoleIs(displayed, roles[0]);
      if first.Some? {
        assert ([first.value] + rest)[1..] == rest;
      } else {
        NoneOfRole(folders, roles[0], counts);
        assert [] + rest == rest;
      }
    }
  }

  lemma KeepCustomOfVirtual(folders: seq<Folder>, roles: seq<Role>, index: nat, custom: seq<Folder>)
    requires Keep(custom, IsCustom) == custom
    ensures Keep(VirtualFolders(folders, roles, index) + custom, IsCustom) == custom
  {
    var virtual := VirtualFolders(folders, roles, index);
    VirtualHaveRoles(folders, roles, index);
    KeepConcat(virtual, custom, IsCustom);
    NoneKept(virtual);
  }

  lemma {:induction false} NoneKept(folders: seq<Folder>)
    requires forall f :: f in folders ==> !IsCustom(f)
    ensures Keep(folders, IsCustom) == []
  {
    if folders == [] {
    } else {
      NoneKept(folders[1..]);
    }
  }

  lemma {:induction false} VirtualHaveRoles(folders: seq<Folder>, roles: seq<Role>, index: nat)
    ensures forall f :: f in VirtualFolders(folders, roles, index) ==>
              f.role.Some? && f.id == AllAccountsFolderId(f.role.value)
  {
    if roles == [] {
    } else {
      VirtualHaveRoles(folders, roles[1..], index + 1);
      VirtualHaveRoles(folders, roles[1..], index);
    }
  }

  lemma {:induction false} KeepAll(custom: seq<Folder>)
    requires forall f :: f in custom ==> IsCustom(f)
    ensures Keep(custom, IsCustom) == custom
  {
    if custom == [] {
    } else {
      KeepAll(custom[1..]);
      assert custom == [custom[0]] + custom[1..];
    }
  }

  lemma {:induction false} VirtualHasRole(folders: seq<Folder>, roles: seq<Role>, index: nat, custom: seq<Folder>,
                                          role: Role)
    requires forall f :: f in custom ==> IsCustom(f)
    ensures HasRole(VirtualFolders(folders, roles, index) + custom, role) <==> role in roles && HasRole(folders, role)
  {
    if roles == [] {
      assert [] + custom == custom;
      assert forall i :: 0 <= i < |custom| ==> custom[i] in custom;
    } else {
      var shown := HasRole(folders, roles[0]);
      var rest := VirtualFolders(folders, roles[1..], if shown then index + 1 else index);
      VirtualHasRole(folders, roles[1..], if shown then index + 1 else index, custom, role);
      var all := VirtualFolders(folders, roles, index) + custom;
      if shown {
        assert all == [Virtual(roles[0], index)] + (rest + custom);
        HasRoleCons(Virtual(roles[0], index), rest + custom, role);
      }
    }
  }

  lemma HasRoleCons(f: Folder, rest: seq<Folder>, role: Role)
    ensures HasRole([f] + rest, role) <==> f.role == Some(role) || HasRole(rest, role)
  {
    var all := [f] + rest;
    if HasRole(all, role) {
      var i :| 0 <= i < |all| && all[i].role == Some(role);
      assert i > 0 ==> rest[i - 1].role == Some(role);
    }
    if HasRole(rest, role) {
      var i :| 0 <= i < |rest| && rest[i].role == Some(role);
      assert all[i + 1].role == Some(role);
    }
    assert all[0] == f;
  }

  lemma CustomOnly(s: seq<Folder>, folders: seq<Folder>, rank: Rank)
    requires s == SortByKey(Keep(folders, IsCustom), rank)
    ensures forall f :: f in s ==> IsCustom(f)
  {
    forall f | f in s ensures IsCustom(f) { InSameMultiset(s, Keep(folders, IsCustom), f); }
  }

  /** The dues of the folders shown add up to all unread messages, in either mode. */
  lemma DuesAreTotal(folders: seq<Folder>, combined: bool, rank: Rank, counts: Counts)
    ensures Dues(Shown(folders, combined, rank), folders, counts) == Total(folders, counts)
  {
    var displayed := if combined then BuildAllAccountsFolders(folders, rank) else folders;
    DisplayedRoles(folders, combined, rank);
    DuesOfFirsts(displayed, folders, SYSTEM_ROLE_ORDER, counts);
    DuesConcat(FirstOfRoles(displayed, SYSTEM_ROLE_ORDER), SortByKey(Keep(displayed, IsCustom), rank), folders, counts);
    DuesOfSort(Keep(displayed, IsCustom), rank, folders, counts);
    DisplayedCustom(folders, combined, rank, counts);
    DuesOfCustom(Keep(folders, IsCustom), folders, counts);
    Partition(folders, counts);
  }

  lemma DisplayedRoles(folders: seq<Folder>, combined: bool, rank: Rank)
    ensures SameRoles(if combined then BuildAllAccountsFolders(folders, rank) else folders, folders)
  {
    var custom := SortByKey(Keep(folders, IsCustom), rank);
    var displayed := if combined then BuildAllAccountsFolders(folders, rank) else folders;
    CustomOnly(custom, folders, rank);
    forall role ensures FirstOfRole(displayed, role).Some? <==> HasRole(folders, role) {
      FirstOfRoleIs(displayed, role);
      AllRoles(role);
      if combined { VirtualHasRole(folders, SYSTEM_ROLE_ORDER, 0, custom, role); }
    }
  }

  lemma DisplayedCustom(folders: seq<Folder>, combined: bool, rank: Rank, counts: Counts)
    ensures var displayed := if combined then BuildAllAccountsFolders(folders, rank) else folders;
            Dues(Keep(displayed, IsCustom), folders, counts) == Dues(Keep(folders, IsCustom), folders, counts)
  {
    if combined {
      var custom := SortByKey(Keep(folders, IsCustom), rank);
      CustomOnly(custom, folders, rank);
      KeepAll(custom);
      KeepCustomOfVirtual(folders, SYSTEM_ROLE_ORDER, 0, custom);
      DuesOfSort(Keep(folders, IsCustom), rank, folders, counts);
    }
  }

  // ---------------------------------------------------------------- badges against dues

  ghost predicate ProperIds(folders: seq<Folder>) {
    && (forall i, j :: 0 <= i < j < |folders| ==> folders[i].id != folders[j].id)
    && (forall f :: f in folders ==> !IsAllAccountsFolderId(f.id))
  }

  lemma {:induction false} FindDistinct(folders: seq<Folder>, f: Folder)
    requires (forall i, j :: 0 <= i < j < |folders| ==> folders[i].id != folders[j].id) && f in folders
    ensures FindFolder(folders, f.id) == Some(f)
  {
    if folders[0] != f {
      var i :| 0 <= i < |folders| && folders[i] == f;
      assert folders[1..][i - 1] == f;
      FindDistinct(folders[1..], f);
    }
  }

  /** A folder shown is a real one or a virtual one. */
  ghost predicate ShownOk(f: Folder, folders: seq<Folder>) {
    f in folders || (f.role.Some? && f.id == AllAccountsFolderId(f.role.value))
  }

  /** The badge of a folder is its due, unless its id is empty: then it is zero. */
  lemma BadgeIsDue(f: Folder, folders: seq<Folder>, counts: Counts)
    requires ProperIds(folders) && ShownOk(f, folders)
    ensures UnreadCountForFolder(f.id, folders, counts) == if f.id == "" then 0 else Due(f, folders, counts)
  {
    if f.role.Some? { VirtualIdRoundTrip(f.id, f.role.value); }
    if f in folders {
      FindDistinct(folders, f);
      assert RoleFromId(f.id).None? && SelectedRole(f.id, folders) == f.role;
      TotalOfOne(f, counts);
    } else {
      assert f.id != "" && SelectedRole(f.id, folders) == f.role;
    }
  }

  lemma TotalOfOne(f: Folder, counts: Counts)
    ensures Total([f], counts) == CountOf(f.id, counts)
  {
    assert [f][1..] == [];
  }

  lemma {:induction false} FirstsAreOk(displayed: seq<Folder>, folders: seq<Folder>, roles: seq<Role>)
    requires forall f :: f in displayed ==> ShownOk(f, folders)
    ensures forall f :: f in FirstOfRoles(displayed, roles) ==> ShownOk(f, folders)
  {
    if roles == [] {
    } else {
      FirstOfRoleIs(displayed, roles[0]);
      FirstsAreOk(displayed, folders, roles[1..]);
    }
  }

  lemma AllShownAreOk(folders: seq<Folder>, combined: bool, rank: Rank)
    ensures forall f :: f in Shown(folders, combined, rank) ==> ShownOk(f, folders)
  {
    var displayed := if combined then BuildAllAccountsFolders(folders, rank) else folders;
    if combined {
      VirtualHaveRoles(folders, SYSTEM_ROLE_ORDER, 0);
      forall f | f in SortByKey(Keep(folders, IsCustom), rank) ensures f in folders {
        InSameMultiset(SortByKey(Keep(folders, IsCustom), rank), Keep(folders, IsCustom), f);
      }
    }
    FirstsAreOk(displayed, folders, SYSTEM_ROLE_ORDER);
    forall f | f in SortByKey(Keep(displayed, IsCustom), rank) ensures f in displayed {
      InSameMultiset(SortByKey(Keep(displayed, IsCustom), rank), Keep(displayed, IsCustom), f);
    }
  }

  lemma {:induction false} BadgesUpToDues(shown: seq<Folder>, folders: seq<Folder>, counts: Counts)
    requires ProperIds(folders) && forall f :: f in shown ==> ShownOk(f, folders)
    ensures Badges(shown, folders, counts) <= Dues(shown, folders, counts)
    ensures Badges(shown, folders, counts) == Dues(shown, folders, counts)
            <==> forall f :: f in shown && f.id == "" ==> Due(f, folders, counts) == 0
  {
    if shown == [] {
    } else {
      BadgeIsDue(shown[0], folders, counts);
      BadgesUpToDues(shown[1..], folders, counts);
      assert forall f :: f in shown <==> f == shown[0] || f in shown[1..];
    }
  }

  /** Main result: in either mode the badges of the folders shown add up to the unread
      messages of all folders, each counted once, if and only if no folder shown with an
      empty id has unread messages to show. */
  lemma UnreadConserved(folders: seq<Folder>, combined: bool, rank: Rank, counts: Counts)
    requires ProperIds(folders)
    ensures var shown := Shown(folders, combined, rank);
            && Badges(shown, folders, counts) <= Total(folders, counts)
            && (Badges(shown, folders, counts) == Total(folders, counts) <==>
                  forall f :: f in shown && f.id == "" ==> Due(f, folders, counts) == 0)
            && ((forall f :: f in folders ==> f.id != "") ==> Badges(shown, folders, counts) == Total(folders, counts))
  {
    DuesAreTotal(folders, combined, rank, counts);
    AllShownAreOk(folders, combined, rank);
    BadgesUpToDues(Shown(folders, combined, rank), folders, counts);
  }

  /** A folder with an empty id loses its unread messages. */
  lemma EmptyIdLosesUnread(name: string, rank: Rank, count: nat)
    requires count > 0
    ensures var folders := [Folder("", None, name, 0)];
            && ProperIds(folders) && Total(folders, map["" := count]) == count
            && Badges(Shown(folders, false, rank), folders, map["" := count]) == 0
  {
    var folder := Folder("", None, name, 0);
    TotalOfOne(folder, map["" := count]);
    NoRolesNoFirsts([folder], SYSTEM_ROLE_ORDER);
    forall f | f in Shown([folder], false, rank) ensures f == folder {
      InSameMultiset(SortByKey(Keep([folder], IsCustom), rank), Keep([folder], IsCustom), f);
    }
    EmptyIdsShowNothing(Shown([folder], false, rank), [folder], map["" := count]);
  }

  lemma {:induction false} NoRolesNoFirsts(folders: seq<Folder>, roles: seq<Role>)
    requires forall f :: f in folders ==> IsCustom(f)
    ensures FirstOfRoles(folders, roles) == []
  {
    if roles == [] {
    } else {
      FirstOfRoleIs(folders, roles[0]);
      NoRolesNoFirsts(folders, roles[1..]);
    }
  }

  lemma {:induction false} EmptyIdsShowNothing(shown: seq<Folder>, folders: seq<Folder>, counts: Counts)
    requires forall f :: f in shown ==> f.id == ""
    ensures Badges(shown, folders, counts) == 0
  {
    if shown == [] {
    } else {
      assert shown[0] in shown && forall f :: f in shown[1..] ==> f in shown;
      EmptyIdsShowNothing(shown[1..], folders, counts);
    }
  }
}
