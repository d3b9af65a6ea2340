/** The privilege overlay: a superadmin may act in a lesser staff role. The role acted in travels in the
    token; what it is worth is decided against the account as stored when the token is used. */
module Privileges {
  import opened Options
  import opened Texts
  import opened Permissions

  /** An account as stored: role strings are free text. */
  datatype User = User(superuser: bool, active: bool, roles: seq<string>)

  function LowerChar(c: char): char { if 'A' <= c <= 'Z' then 'a' + (c - 'A') else c }

  /** `str.lower`, on the letters that occur in role names. */
  function Lower(s: string): (t: string)
    ensures |t| == |s|
    ensures forall i :: 0 <= i < |s| ==> t[i] == LowerChar(s[i])
  {
    if s == "" then "" else [LowerChar(s[0])] + Lower(s[1..])
  }

  predicate AllLower(u: User) { forall i :: 0 <= i < |u.roles| ==> Lower(u.roles[i]) == u.roles[i] }

  /** The parsed roles; what cannot be parsed is skipped. */
  function ParsedRoles(names: seq<string>): (roles: seq<Role>) {
    if names == [] then []
    else (if ParseRole(names[0]).Some? then [ParseRole(names[0]).value] else []) + ParsedRoles(names[1..])
  }

  /** `_can_privilege_switch` */
  predicate CanSwitch(u: User) {
    u.superuser || exists i :: 0 <= i < |u.roles| && Lower(u.roles[i]) == "superadmin"
  }

  /** `PRIVILEGE_SWITCH_ROLES` */
  const SWITCH_ROLES: set<Role> := {
    PlatformAdmin, HostingOperator, BillingAgent, SupportAgent, Auditor, Admin, Operator, Viewer, CustomerCare
  }

  predicate IsSwitchRole(s: string) { ParseRole(s).Some? && ParseRole(s).value in SWITCH_ROLES }

  /** The role a token names, if it is to be considered at all. */
  function RoleKey(role: string): string { Lower(Strip(role)) }

  /** `_normalize_act_as` */
  function Normalize(u: User, act: Option<string>): (key: Option<string>)
  {
    if act.None? || act.value == "" then None
    else
      var key := RoleKey(act.value);
      if !IsSwitchRole(key) || !CanSwitch(u) then None else Some(key)
  }

  function RolesOf(u: User): seq<Role> { ParsedRoles(u.roles) }

  /** The stored roles alone. */
  predicate StoredAllows(u: User, p: Permission) { u.superuser || RolesHavePermission(RolesOf(u), p) }

  /** What a current user may do, given the role acted in; `user_has_permission` for a known permission. */
  predicate Grants(u: User, acting: Option<Role>, p: Permission) {
    u.active && match acting case None => StoredAllows(u, p) case Some(role) => RolesHavePermission([role], p)
  }

  /** The role that `get_current_user` finds the bearer of a token to act in. */
  function ActsAs(u: User, act: Option<string>): (acting: Option<Role>)
    ensures acting.Some? ==> CanSwitch(u) && acting.value in SWITCH_ROLES
  {
    var key := Normalize(u, act);
    if key.None? || key.value == "" then None else ParseRole(key.value)
  }

  /** `get_current_user` followed by `user_has_permission`. */
  ghost predicate Allows(u: User, act: Option<string>, permission: string) {
    match ParsePermission(permission) case None => false case Some(p) => Grants(u, ActsAs(u, act), p)
  }

  lemma AllowsExactly(u: User, act: Option<string>, p: Permission)
    ensures Allows(u, act, PermissionName(p)) <==> Grants(u, ActsAs(u, act), p)
  {
    ParseName(p);
  }

  // ----- What the guard decides -----

  /** A role with all permissions. */
  predicate Full(r: Role) { r == PlatformOwner || r == Superadmin }

  predicate HasFull(u: User) { u.superuser || PlatformOwner in RolesOf(u) || Superadmin in RolesOf(u) }

  predicate HasAdmin(u: User) { PlatformAdmin in RolesOf(u) || Admin in RolesOf(u) }

  predicate HasOperator(u: User) { HostingOperator in RolesOf(u) || Operator in RolesOf(u) }

  lemma RoleAllows(u: User, r: Role, p: Permission)
    requires r in RolesOf(u) && p in RolePermissions(r)
    ensures StoredAllows(u, p)
  {
    var i :| 0 <= i < |RolesOf(u)| && RolesOf(u)[i] == r;
    assert RoleHasPermission(RolesOf(u)[i], p);
  }

  lemma FullAllows(u: User, p: Permission)
    requires HasFull(u)
    ensures StoredAllows(u, p)
  {
    AllIsAll(p);
    if PlatformOwner in RolesOf(u) {
      RoleAllows(u, PlatformOwner, p);
    } else if Superadmin in RolesOf(u) {
      RoleAllows(u, Superadmin, p);
    }
  }

  /** The roles one can switch to grant nothing that an admin and an operator together do not have. */
  lemma LesserRoles(r: Role, p: Permission)
    requires r in SWITCH_ROLES && p in RolePermissions(r)
    ensures p in RolePermissions(Admin) || p in RolePermissions(Operator)
    ensures RolePermissions(PlatformAdmin) == RolePermissions(Admin)
    ensures RolePermissions(HostingOperator) == RolePermissions(Operator)
  {
    if r == Auditor || r == Viewer {
      assert p in AUDITOR_PERMISSIONS;
    }
  }

  /** The stored roles are enough for every overlay the account can get. */
  predicate OverlaysAreLess(u: User) {
    u.active && CanSwitch(u) ==> HasFull(u) || (HasAdmin(u) && HasOperator(u))
  }

  lemma Covered(u: User, r: Role, p: Permission)
    requires HasFull(u) || (HasAdmin(u) && HasOperator(u))
    requires r in SWITCH_ROLES && p in RolePermissions(r)
    ensures StoredAllows(u, p)
  {
    if HasFull(u) {
      FullAllows(u, p);
    } else {
      LesserRoles(r, p);
      if p in RolePermissions(Admin) {
        RoleAllows(u, if Admin in RolesOf(u) then Admin else PlatformAdmin, p);
      } else {
        RoleAllows(u, if Operator in RolesOf(u) then Operator else HostingOperator, p);
      }
    }
  }

  lemma OnlyAdminsWritePlans(r: Role)
    ensures PlatformWrite in RolePermissions(r) <==> Full(r) || r == PlatformAdmin || r == Admin
  {
  }

  lemma OnlyOperatorsWriteServers(r: Role)
    ensures ServersWrite in RolePermissions(r) <==> Full(r) || r == HostingOperator || r == Operator
  {
  }

  lemma NotAdmin(u: User)
    requires !HasFull(u) && !HasAdmin(u)
    ensures !StoredAllows(u, PlatformWrite)
  {
    forall i | 0 <= i < |RolesOf(u)| ensures !RoleHasPermission(RolesOf(u)[i], PlatformWrite) {
      assert RolesOf(u)[i] in RolesOf(u);
      OnlyAdminsWritePlans(RolesOf(u)[i]);
    }
  }

  lemma NotOperator(u: User)
    requires !HasFull(u) && !HasOperator(u)
    ensures !StoredAllows(u, ServersWrite)
  {
    forall i | 0 <= i < |RolesOf(u)| ensures !RoleHasPermission(RolesOf(u)[i], ServersWrite) {
      assert RolesOf(u)[i] in RolesOf(u);
      OnlyOperatorsWriteServers(RolesOf(u)[i]);
    }
  }

  lemma {:induction false} ParsedHas(names: seq<string>, i: nat, r: Role)
    requires i < |names| && ParseRole(names[i]) == Some(r)
    ensures r in ParsedRoles(names)
  {
    if i > 0 {
      ParsedHas(names[1..], i - 1, r);
    }
  }

  lemma LowerNamesAreExact(u: User)
    requires AllLower(u) && CanSwitch(u)
    ensures HasFull(u)
  {
    if !u.superuser {
      var i :| 0 <= i < |u.roles| && Lower(u.roles[i]) == "superadmin";
      ParsedHas(u.roles, i, Superadmin);
    }
  }

  /** No token lets its bearer do more than the stored roles do, if role names are stored in lower case. */
  lemma NeverMoreThanStored(u: User, act: Option<string>, p: Permission)
    requires AllLower(u) && Grants(u, ActsAs(u, act), p)
    ensures u.active && StoredAllows(u, p)
  {
    if ActsAs(u, act).Some? {
      LowerNamesAreExact(u);
      FullAllows(u, p);
    }
  }

  lemma PlainKey(s: string)
    requires s != "" && forall i :: 0 <= i < |s| ==> 'a' <= s[i] <= 'z'
    ensures RoleKey(s) == s
  {
    assert !IsSpace(s[0]) && !IsSpace(s[|s| - 1]);
    assert Strip(s) == s;
    assert Lower(s) == s;
  }

  lemma AdminAndOperator()
    ensures ParseRole("admin") == Some(Admin) && ParseRole("operator") == Some(Operator)
  {
  }

  lemma ActingIn(u: User, key: string, r: Role)
    requires CanSwitch(u) && key != "" && RoleKey(key) == key && ParseRole(key) == Some(r) && r in SWITCH_ROLES
    ensures ActsAs(u, Some(key)) == Some(r)
  {
  }

  /** An overlay in this role, whatever the token says. */
  lemma OverlayExceeds(u: User, r: Role, p: Permission)
    requires u.active && p in RolePermissions(r)
    ensures Grants(u, Some(r), p)
  {
    assert [r][0] == r && RoleHasPermission([r][0], p);
  }

  /** Without the assumption on how names are stored: an overlay can never exceed the stored roles exactly
      when the account cannot switch, or has all permissions, or has an admin and an operator role. A role
      stored as "SuperAdmin" lets an account switch and grants it nothing. */
  lemma ExceedsExactly(u: User)
    ensures OverlaysAreLess(u) ==> forall act, p :: Grants(u, ActsAs(u, act), p) ==> StoredAllows(u, p)
    ensures !OverlaysAreLess(u) ==> exists act, p :: Grants(u, ActsAs(u, act), p) && !StoredAllows(u, p)
  {
    if OverlaysAreLess(u) {
      forall act, p | Grants(u, ActsAs(u, act), p) ensures StoredAllows(u, p) {
        GrantsCovered(u, ActsAs(u, act), p);
      }
    } else if !HasAdmin(u) {
      PlainKey("admin");
      AdminAndOperator();
      ActingIn(u, "admin", Admin);
      OnlyAdminsWritePlans(Admin);
      OverlayExceeds(u, Admin, PlatformWrite);
      NotAdmin(u);
      assert Grants(u, ActsAs(u, Some("admin")), PlatformWrite);
    } else {
      PlainKey("operator");
      AdminAndOperator();
      ActingIn(u, "operator", Operator);
      OnlyOperatorsWriteServers(Operator);
      OverlayExceeds(u, Operator, ServersWrite);
      NotOperator(u);
      assert Grants(u, ActsAs(u, Some("operator")), ServersWrite);
    }
  }

  lemma GrantsCovered(u: User, acting: Option<Role>, p: Permission)
    requires OverlaysAreLess(u) && Grants(u, acting, p)
    requires acting.Some? ==> CanSwitch(u) && acting.value in SWITCH_ROLES
    ensures StoredAllows(u, p)
  {
    if acting.Some? {
      Covered(u, acting.value, p);
    }
  }

  lemma LowerIs(s: string, t: string)
    requires |s| == |t| && forall i :: 0 <= i < |s| ==> LowerChar(s[i]) == t[i]
    ensures Lower(s) == t
  {
  }

  lemma MixedCaseName()
    ensures Lower("SuperAdmin") == "superadmin"
  {
    LowerIs("SuperAdmin", "superadmin");
  }

  lemma MixedCaseIsNoRole()
    ensures ParseRole("SuperAdmin") == None
  {
  }

  lemma NoRoles(name: string)
    requires ParseRole(name) == None
    ensures ParsedRoles([name]) == []
  {
    assert [name][1..] == [];
  }

  lemma SwitchesByName(u: User, i: nat)
    requires i < |u.roles| && Lower(u.roles[i]) == "superadmin"
    ensures CanSwitch(u)
  {
  }

  lemma NothingStored(u: User)
    requires u.active && CanSwitch(u) && !u.superuser && RolesOf(u) == []
    ensures !OverlaysAreLess(u)
  {
  }

  /** Such an account: it can switch to every staff role and has no permission of its own. */
  lemma MixedCaseSwitches()
    ensures var u := User(false, true, ["SuperAdmin"]);
            CanSwitch(u) && !OverlaysAreLess(u) && RolesOf(u) == []
  {
    var u := User(false, true, ["SuperAdmin"]);
    MixedCaseName();
    SwitchesByName(u, 0);
    MixedCaseIsNoRole();
    NoRoles("SuperAdmin");
    NothingStored(u);
  }

  /** `permissions_for_roles` lists what the guard allows without an overlay. */
  method ListPermissions(u: User) returns (xs: seq<string>)
    requires u.active
    ensures StrictlySorted(xs)
    ensures forall permission :: permission in xs <==> Allows(u, None, permission)
  {
    xs := PermissionsForRoles(RolesOf(u), u.superuser);
    forall permission ensures permission in xs <==> Allows(u, None, permission) {
      var r := ParsePermission(permission);
      if permission in xs {
        var p :| PermissionName(p) == permission;
        ParseName(p);
      }
    }
  }

  // ----- Runs of a session -----

  /** A session of one account: the account as stored, and the overlay in the session's token. */
  datatype Session = Session(user: User, act: Option<string>)

  datatype Event =
    | Edited(user: User)
    | Switched(role: string)
    | Restored
    | Refreshed

  /** Does the call succeed? A refused call leaves the token as it is. */
  predicate Accepted(s: Session, e: Event) {
    match e
    case Edited(_) => true
    case Switched(role) => s.user.active && CanSwitch(s.user) && IsSwitchRole(RoleKey(role))
    case Restored => s.user.active && CanSwitch(s.user)
    case Refreshed => s.user.active
  }

  function Apply(s: Session, e: Event): Session {
    if !Accepted(s, e) then s
    else
      match e
      case Edited(user) => s.(user := user)
      case Switched(role) => s.(act := Some(RoleKey(role)))
      case Restored => s.(act := None)
      case Refreshed => s.(act := Normalize(s.user, s.act))
  }

  function After(s: Session, es: seq<Event>): Session {
    if es == [] then s else Apply(After(s, es[..|es| - 1]), es[|es| - 1])
  }

  // ----- What a switch and a restore do -----

  /** The roles that are neither a customer nor have every permission. */
  predicate Lesser(r: Role) { r != PlatformOwner && r != Superadmin && r != Customer }

  lemma SwitchRolesAreLesser(r: Role)
    ensures r in SWITCH_ROLES <==> Lesser(r)
  {
  }

  lemma {:induction false} ParsedAre(names: seq<string>, r: Role)
    ensures r in ParsedRoles(names) <==> exists i :: 0 <= i < |names| && names[i] == RoleName(r)
  {
    if names != [] {
      ParsePrinted(names[0], r);
      ParsedAre(names[1..], r);
      assert names == [names[0]] + names[1..];
    }
  }

  /** Without an overlay: an active superuser may do anything, and anybody else who is active what a role stored
      under its own name grants. */
  lemma StoredMeans(u: User, p: Permission)
    ensures Grants(u, None, p) <==>
              u.active && (u.superuser ||
                           exists r, i :: 0 <= i < |u.roles| && u.roles[i] == RoleName(r) && p in RolePermissions(r))
  {
    if u.active && !u.superuser {
      if Grants(u, None, p) {
        var k :| 0 <= k < |RolesOf(u)| && RoleHasPermission(RolesOf(u)[k], p);
        ParsedAre(u.roles, RolesOf(u)[k]);
      }
      forall r, i | 0 <= i < |u.roles| && u.roles[i] == RoleName(r) && p in RolePermissions(r)
        ensures Grants(u, None, p)
      {
        ParsedAre(u.roles, r);
        RoleAllows(u, r, p);
      }
    }
  }

  /** An active account that is a superuser or has a role named "superadmin", in whatever case, switches to any
      lesser role by its name, in whatever case and with white space around; it may then do just what that role
      may. No other name changes anything. */
  lemma SwitchDecides(s: Session, role: string, r: Role, p: Permission)
    requires s.user.active
    requires s.user.superuser || exists i :: 0 <= i < |s.user.roles| && Lower(s.user.roles[i]) == "superadmin"
    requires Lower(Strip(role)) == RoleName(r)
    ensures var t := Apply(s, Switched(role));
            && t.user == s.user
            && (Lesser(r) ==> ActsAs(t.user, t.act) == Some(r)
                              && (Grants(t.user, ActsAs(t.user, t.act), p) <==> p in RolePermissions(r)))
            && (!Lesser(r) ==> t == s)
  {
    ParsePrinted(RoleKey(role), r);
    SwitchRolesAreLesser(r);
    if Lesser(r) {
      SwitchActsIn(s, role, r);
      OverlayIsTheRole(s.user, r, p);
    }
  }

  lemma SwitchActsIn(s: Session, role: string, r: Role)
    requires s.user.active && CanSwitch(s.user) && ParseRole(RoleKey(role)) == Some(r) && r in SWITCH_ROLES
    ensures Apply(s, Switched(role)) == Session(s.user, Some(RoleKey(role)))
    ensures ActsAs(s.user, Some(RoleKey(role))) == Some(r)
  {
    LowerTwice(Strip(role));
    SwitchRolesAreKeys(RoleKey(role));
    ActingIn(s.user, RoleKey(role), r);
  }

  lemma OverlayIsTheRole(u: User, r: Role, p: Permission)
    requires u.active
    ensures Grants(u, Some(r), p) <==> p in RolePermissions(r)
  {
    assert RoleHasPermission([r][0], p) <==> p in RolePermissions(r);
  }

  lemma UnknownNamesChangeNothing(s: Session, role: string)
    requires forall r :: Lower(Strip(role)) != RoleName(r)
    ensures Apply(s, Switched(role)) == s
  {
    if ParseRole(RoleKey(role)).Some? {
      ParsePrinted(RoleKey(role), ParseRole(RoleKey(role)).value);
    }
  }

  /** A restore gives such an account its stored powers back; nobody else can switch or restore. */
  lemma RestoreDecides(s: Session, role: string)
    ensures var may := s.user.active && (s.user.superuser ||
                       exists i :: 0 <= i < |s.user.roles| && Lower(s.user.roles[i]) == "superadmin");
            && Apply(s, Restored) == (if may then Session(s.user, None) else s)
            && (!may ==> Apply(s, Switched(role)) == s)
    ensures ActsAs(s.user, None) == None
    ensures forall u :: Apply(s, Edited(u)) == Session(u, s.act)
  {
  }

  predicate LowerRun(s: Session, es: seq<Event>) {
    AllLower(s.user) && forall i :: 0 <= i < |es| && es[i].Edited? ==> AllLower(es[i].user)
  }

  lemma {:induction false} StaysLower(s: Session, es: seq<Event>)
    requires LowerRun(s, es)
    ensures AllLower(After(s, es).user)
  {
    if es != [] {
      StaysLower(s, es[..|es| - 1]);
    }
  }

  /** Whatever was switched, restored, refreshed and edited: the session can do at most what the account's
      current stored roles allow. */
  lemma RunNeverExceeds(s: Session, es: seq<Event>, p: Permission)
    requires LowerRun(s, es)
    requires var t := After(s, es); Grants(t.user, ActsAs(t.user, t.act), p)
    ensures StoredAllows(After(s, es).user, p)
  {
    StaysLower(s, es);
    NeverMoreThanStored(After(s, es).user, After(s, es).act, p);
  }

  /** What an event does to the overlay on request: an accepted switch takes a role on, an accepted restore
      gives it back. */
  datatype Mark = Took(role: string) | Gave | Neither

  function MarkOf(s: Session, e: Event): Mark {
    if !Accepted(s, e) then Neither
    else match e
      case Switched(role) => Took(RoleKey(role))
      case Restored => Gave
      case _ => Neither
  }

  function Marks(s: Session, es: seq<Event>): seq<Mark> {
    if es == [] then [] else Marks(s, es[..|es| - 1]) + [MarkOf(After(s, es[..|es| - 1]), es[|es| - 1])]
  }

  /** Event `k` is the accepted switch to this role, and no switch or restore was accepted since. */
  predicate LastSwitch(marks: seq<Mark>, k: nat, role: string) {
    k < |marks| && marks[k] == Took(role) && forall j :: k < j < |marks| ==> marks[j].Neither?
  }

  lemma LowerTwice(s: string)
    ensures Lower(Lower(s)) == Lower(s)
  {
  }

  predicate IsKey(s: string) { RoleKey(s) == s && s != "" && IsSwitchRole(s) }

  /** The names of the roles are their own keys. */
  lemma SwitchRolesAreKeys(s: string)
    requires IsSwitchRole(s) && Lower(s) == s
    ensures IsKey(s)
  {
  }

  lemma MarksGrow(marks: seq<Mark>, m: Mark, k: nat, role: string)
    ensures m == Took(role) ==> LastSwitch(marks + [m], |marks|, role)
    ensures m.Neither? && LastSwitch(marks, k, role) ==> LastSwitch(marks + [m], k, role)
  {
  }

  /** A token that is plain, or names its role by its key. */
  predicate Keyed(act: Option<string>) { act.Some? ==> IsKey(act.value) }

  /** One event: the overlay is the role just taken on, or it is as it was, or there is none. */
  lemma OverlayStep(s: Session, e: Event)
    requires Keyed(s.act)
    ensures var act, m := Apply(s, e).act, MarkOf(s, e);
            Keyed(act) && (act.Some? ==> m == Took(act.value) || (m.Neither? && act == s.act))
  {
    if e.Switched? && Accepted(s, e) {
      LowerTwice(Strip(e.role));
      SwitchRolesAreKeys(RoleKey(e.role));
    }
  }

  predicate Explained(marks: seq<Mark>, act: Option<string>) {
    act.Some? ==> exists k :: 0 <= k < |marks| && LastSwitch(marks, k, act.value)
  }

  lemma ExplainedStep(marks: seq<Mark>, act: Option<string>, m: Mark, later: Option<string>)
    requires Explained(marks, act)
    requires later.Some? ==> m == Took(later.value) || (m.Neither? && later == act)
    ensures Explained(marks + [m], later)
  {
    if later.Some? {
      if m.Neither? {
        var k :| 0 <= k < |marks| && LastSwitch(marks, k, act.value);
        MarksGrow(marks, m, k, act.value);
      } else {
        MarksGrow(marks, m, 0, later.value);
      }
    }
  }

  lemma OneMoreEvent(s: Session, es: seq<Event>)
    requires es != []
    ensures var front, e := es[..|es| - 1], es[|es| - 1];
            After(s, es) == Apply(After(s, front), e) && Marks(s, es) == Marks(s, front) + [MarkOf(After(s, front), e)]
  {
  }

  /** In a session that began with a login, the overlay in the token is the role of the last accepted
      switch, after which nothing was restored or switched. */
  lemma {:induction false} OverlayIsLastSwitch(s: Session, es: seq<Event>)
    requires s.act.None?
    ensures Keyed(After(s, es).act) && Explained(Marks(s, es), After(s, es).act)
  {
    if es != [] {
      var front, e := es[..|es| - 1], es[|es| - 1];
      var t := After(s, front);
      OverlayIsLastSwitch(s, front);
      OverlayStep(t, e);
      ExplainedStep(Marks(s, front), t.act, MarkOf(t, e), Apply(t, e).act);
      OneMoreEvent(s, es);
    }
  }

  /** Refreshing does not change the role a session acts in. */
  lemma RefreshKeepsPowers(s: Session)
    requires Keyed(s.act)
    ensures ActsAs(s.user, Apply(s, Refreshed).act) == ActsAs(s.user, s.act)
  {
  }

  /** A refresh while the account may not switch gives the overlay up for good: even when the account may
      switch again, the session acts in a lesser role only after a new switch. */
  lemma {:induction false} LapsedOverlayIsGone(s: Session, es: seq<Event>)
    requires s.user.active && !CanSwitch(s.user)
    ensures var t := Apply(s, Refreshed);
            var last := After(t, es);
            ActsAs(last.user, last.act).Some? ==> last.act.Some? && Explained(Marks(t, es), last.act)
  {
    OverlayIsLastSwitch(Apply(s, Refreshed), es);
  }

  /** An account that stops being a superadmin drops out of its overlay and has its stored roles again,
      which may be more than the role it acted in; so an overlay does not outlast the right to it. */
  lemma DemotionLiftsTheOverlay(u: User, act: Option<string>, p: Permission)
    requires u.active && !CanSwitch(u)
    ensures Grants(u, ActsAs(u, act), p) <==> StoredAllows(u, p)
  {
  }
}
