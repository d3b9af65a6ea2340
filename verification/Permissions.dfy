/** Roles, the permissions they grant, and the sorted list of what several roles grant together. */
module Permissions {
  import opened Options

  datatype Permission =
    | SystemRead | SystemAdmin | ServersRead | ServersWrite | ServersDelete | DeploymentsRead
    | DeploymentsWrite | DeploymentsExecute | AppsRead | AppsWrite | EmailRead | EmailWrite | DomainsRead
    | DomainsWrite | SslRead | SslWrite | FilesRead | FilesWrite | MailRead | MailWrite | TerminalExecute
    | DatabasesRead | DatabasesWrite | MonitoringRead | UsersRead | UsersWrite | SupportRead | SupportWrite
    | CustomersManage | PlatformRead | PlatformWrite | PlatformOps | BillingView | BillingManage | DrExecute
    | ProvidersManage

  datatype Role =
    | PlatformOwner | PlatformAdmin | HostingOperator | BillingAgent | SupportAgent | Auditor | Customer
    | Superadmin | Admin | Operator | Viewer | CustomerCare

  function PermissionName(p: Permission): (s: string)
    ensures |s| > 2 && FromShape(|s|, s[2]) == p
  {
    match p
    case SystemRead => "system:read"
    case SystemAdmin => "system:admin"
    case ServersRead => "servers:read"
    case ServersWrite => "servers:write"
    case ServersDelete => "servers:delete"
    case DeploymentsRead => "deployments:read"
    case DeploymentsWrite => "deployments:write"
    case DeploymentsExecute => "deployments:execute"
    case AppsRead => "apps:read"
    case AppsWrite => "apps:write"
    case EmailRead => "email:read"
    case EmailWrite => "email:write"
    case DomainsRead => "domains:read"
    case DomainsWrite => "domains:write"
    case SslRead => "ssl:read"
    case SslWrite => "ssl:write"
    case FilesRead => "files:read"
    case FilesWrite => "files:write"
    case MailRead => "mail:read"
    case MailWrite => "mail:write"
    case TerminalExecute => "terminal:execute"
    case DatabasesRead => "databases:read"
    case DatabasesWrite => "databases:write"
    case MonitoringRead => "monitoring:read"
    case UsersRead => "users:read"
    case UsersWrite => "users:write"
    case SupportRead => "support:read"
    case SupportWrite => "support:write"
    case CustomersManage => "customers:manage"
    case PlatformRead => "platform:read"
    case PlatformWrite => "platform:write"
    case PlatformOps => "platform:ops"
    case BillingView => "billing:view"
    case BillingManage => "billing:manage"
    case DrExecute => "disaster_recovery:execute"
    case ProvidersManage => "providers:manage"
  }

  function ParseRole(s: string): Option<Role> {
    if s == "platform_owner" then Some(PlatformOwner)
    else if s == "platform_admin" then Some(PlatformAdmin)
    else if s == "hosting_operator" then Some(HostingOperator)
    else if s == "billing_agent" then Some(BillingAgent)
    else if s == "support_agent" then Some(SupportAgent)
    else if s == "auditor" then Some(Auditor)
    else if s == "customer" then Some(Customer)
    else if s == "superadmin" then Some(Superadmin)
    else if s == "admin" then Some(Admin)
    else if s == "operator" then Some(Operator)
    else if s == "viewer" then Some(Viewer)
    else if s == "customer_care" then Some(CustomerCare)
    else None
  }

  /** `frozenset(Permission)` */
  const ALL: set<Permission> := {
    SystemRead, SystemAdmin, ServersRead, ServersWrite, ServersDelete, DeploymentsRead, DeploymentsWrite,
    DeploymentsExecute, AppsRead, AppsWrite, EmailRead, EmailWrite, DomainsRead, DomainsWrite, SslRead,
    SslWrite, FilesRead, FilesWrite, MailRead, MailWrite, TerminalExecute, DatabasesRead, DatabasesWrite,
    MonitoringRead, UsersRead, UsersWrite, SupportRead, SupportWrite, CustomersManage, PlatformRead,
    PlatformWrite, PlatformOps, BillingView, BillingManage, DrExecute, ProvidersManage
  }

  const PLATFORM_ADMIN_PERMISSIONS: set<Permission> := {
    SystemRead, ServersRead, AppsRead, AppsWrite, EmailRead, MonitoringRead, DomainsRead, DomainsWrite,
    SslRead, FilesRead, MailRead, DatabasesRead, UsersRead, SupportRead, SupportWrite, CustomersManage,
    PlatformRead, PlatformWrite, PlatformOps, BillingView, BillingManage
  }

  const HOSTING_OPERATOR_PERMISSIONS: set<Permission> := {
    SystemRead, ServersRead, ServersWrite, DeploymentsRead, DeploymentsWrite, DeploymentsExecute, AppsRead,
    AppsWrite, MonitoringRead, DomainsRead, DomainsWrite, SslRead, SslWrite, FilesRead, FilesWrite, MailRead,
    MailWrite, EmailRead, EmailWrite, DatabasesRead, DatabasesWrite, SupportRead, SupportWrite, PlatformRead,
    PlatformOps
  }

  const BILLING_AGENT_PERMISSIONS: set<Permission> := {
    PlatformRead, CustomersManage, SupportRead, BillingView, BillingManage, MonitoringRead
  }

  const SUPPORT_AGENT_PERMISSIONS: set<Permission> := {
    PlatformRead, CustomersManage, SupportRead, SupportWrite, MonitoringRead
  }

  const AUDITOR_PERMISSIONS: set<Permission> := {
    SystemRead, ServersRead, DeploymentsRead, AppsRead, EmailRead, MonitoringRead, DomainsRead, SslRead,
    FilesRead, MailRead, DatabasesRead, SupportRead, PlatformRead, BillingView
  }

  /** `ROLE_PERMISSIONS` */
  function RolePermissions(role: Role): set<Permission> {
    match role
    case PlatformOwner | Superadmin => ALL
    case PlatformAdmin | Admin => PLATFORM_ADMIN_PERMISSIONS
    case HostingOperator | Operator => HOSTING_OPERATOR_PERMISSIONS
    case BillingAgent => BILLING_AGENT_PERMISSIONS
    case SupportAgent | CustomerCare => SUPPORT_AGENT_PERMISSIONS
    case Auditor | Viewer => AUDITOR_PERMISSIONS
    case Customer => {}
  }

  const ADMINS: set<Role> := {PlatformAdmin, Admin}
  const OPERATORS: set<Role> := {HostingOperator, Operator}
  const AUDITORS: set<Role> := {Auditor, Viewer}
  const SUPPORTERS: set<Role> := {SupportAgent, CustomerCare}

  /** The table read the other way: the roles that have a permission, apart from the owner and the superadmin, who
      have them all. */
  function RolesWith(p: Permission): set<Role> {
    match p
    case SystemAdmin | ServersDelete | TerminalExecute | UsersWrite | DrExecute | ProvidersManage => {}
    case SystemRead | ServersRead | AppsRead | EmailRead | DomainsRead | SslRead | FilesRead | MailRead |
      DatabasesRead =>
      ADMINS + OPERATORS + AUDITORS
    case ServersWrite | DeploymentsWrite | DeploymentsExecute | EmailWrite | SslWrite | FilesWrite | MailWrite |
      DatabasesWrite => OPERATORS
    case DeploymentsRead => OPERATORS + AUDITORS
    case AppsWrite | DomainsWrite | PlatformOps => ADMINS + OPERATORS
    case UsersRead | PlatformWrite => ADMINS
    case SupportWrite => ADMINS + OPERATORS + SUPPORTERS
    case CustomersManage => ADMINS + {BillingAgent} + SUPPORTERS
    case BillingView => ADMINS + {BillingAgent} + AUDITORS
    case BillingManage => ADMINS + {BillingAgent}
    case MonitoringRead | SupportRead | PlatformRead => ADMINS + OPERATORS + AUDITORS + {BillingAgent} + SUPPORTERS
  }

  lemma AdminsMay(p: Permission)
    ensures p in PLATFORM_ADMIN_PERMISSIONS <==> PlatformAdmin in RolesWith(p)
    ensures p in PLATFORM_ADMIN_PERMISSIONS <==> Admin in RolesWith(p)
  {
  }

  lemma OperatorsMay(p: Permission)
    ensures p in HOSTING_OPERATOR_PERMISSIONS <==> HostingOperator in RolesWith(p)
    ensures p in HOSTING_OPERATOR_PERMISSIONS <==> Operator in RolesWith(p)
  {
  }

  lemma BillingMay(p: Permission)
    ensures p in BILLING_AGENT_PERMISSIONS <==> BillingAgent in RolesWith(p)
  {
  }

  lemma SupportMay(p: Permission)
    ensures p in SUPPORT_AGENT_PERMISSIONS <==> SupportAgent in RolesWith(p)
    ensures p in SUPPORT_AGENT_PERMISSIONS <==> CustomerCare in RolesWith(p)
  {
  }

  lemma AuditorsMay(p: Permission)
    ensures p in AUDITOR_PERMISSIONS <==> Auditor in RolesWith(p)
    ensures p in AUDITOR_PERMISSIONS <==> Viewer in RolesWith(p)
  {
  }

  lemma CustomersMayNothing(p: Permission)
    ensures Customer !in RolesWith(p) && PlatformOwner !in RolesWith(p) && Superadmin !in RolesWith(p)
  {
  }

  /** Both readings agree. */
  lemma TableBothWays(r: Role, p: Permission)
    ensures p in RolePermissions(r) <==> r == PlatformOwner || r == Superadmin || r in RolesWith(p)
  {
    match r
    case PlatformOwner | Superadmin => AllIsAll(p);
    case PlatformAdmin | Admin => AdminsMay(p);
    case HostingOperator | Operator => OperatorsMay(p);
    case BillingAgent => BillingMay(p);
    case SupportAgent | CustomerCare => SupportMay(p);
    case Auditor | Viewer => AuditorsMay(p);
    case Customer => CustomersMayNothing(p);
  }

  function RoleName(r: Role): string {
    match r
    case PlatformOwner => "platform_owner"
    case PlatformAdmin => "platform_admin"
    case HostingOperator => "hosting_operator"
    case BillingAgent => "billing_agent"
    case SupportAgent => "support_agent"
    case Auditor => "auditor"
    case Customer => "customer"
    case Superadmin => "superadmin"
    case Admin => "admin"
    case Operator => "operator"
    case Viewer => "viewer"
    case CustomerCare => "customer_care"
  }

  /** `Role(s)` is the role of that name, if there is one. */
  lemma ParsePrinted(s: string, r: Role)
    ensures ParseRole(s) == Some(r) <==> s == RoleName(r)
  {
    match r
    case _ =>
  }

  /** The permission whose string has length `n` and `c` as its third character. */
  function FromShape(n: nat, c: char): Permission {
    match n
    case 8 => SslRead
    case 9 => if c == 'p' then AppsRead else if c == 'l' then SslWrite else MailRead
    case 10 =>
      if c == 'p' then AppsWrite
      else if c == 'a' then EmailRead
      else if c == 'l' then FilesRead
      else if c == 'i' then MailWrite
      else UsersRead
    case 11 =>
      if c == 's' then SystemRead
      else if c == 'a' then EmailWrite
      else if c == 'l' then FilesWrite
      else UsersWrite
    case 12 =>
      if c == 's' then SystemAdmin
      else if c == 'r' then ServersRead
      else if c == 'm' then DomainsRead
      else if c == 'p' then SupportRead
      else if c == 'a' then PlatformOps
      else BillingView
    case 13 =>
      if c == 'r' then ServersWrite
      else if c == 'm' then DomainsWrite
      else if c == 'p' then SupportWrite
      else PlatformRead
    case 14 =>
      if c == 'r' then ServersDelete
      else if c == 't' then DatabasesRead
      else if c == 'a' then PlatformWrite
      else BillingManage
    case 15 => if c == 't' then DatabasesWrite else MonitoringRead
    case 16 =>
      if c == 'p' then DeploymentsRead
      else if c == 'r' then TerminalExecute
      else if c == 's' then CustomersManage
      else ProvidersManage
    case 17 => DeploymentsWrite
    case 19 => DeploymentsExecute
    case _ => DrExecute
  }

  /** Different permissions have different strings. */
  lemma SameName(p: Permission, q: Permission)
    ensures PermissionName(p) == PermissionName(q) <==> p == q
  {
  }

  /** `Permission(s)`, with `None` for the ValueError. */
  ghost function ParsePermission(s: string): (r: Option<Permission>)
    ensures r.Some? ==> PermissionName(r.value) == s
    ensures r.None? ==> forall p :: PermissionName(p) != s
  {
    if exists p :: PermissionName(p) == s then
      var p :| PermissionName(p) == s;
      Some(p)
    else None
  }

  lemma ParseName(p: Permission)
    ensures ParsePermission(PermissionName(p)) == Some(p)
  {
    SameName(ParsePermission(PermissionName(p)).value, p);
  }

  lemma AllIsAll(p: Permission)
    ensures p in ALL
  {
  }

  predicate RoleHasPermission(role: Role, p: Permission) { p in RolePermissions(role) }

  predicate RolesHavePermission(roles: seq<Role>, p: Permission) {
    exists i :: 0 <= i < |roles| && RoleHasPermission(roles[i], p)
  }

  // ----- The order of strings -----

  /** `a < b` for two strings. */
  predicate Before(a: string, b: string) {
    b != "" && (a == "" || a[0] < b[0] || (a[0] == b[0] && Before(a[1..], b[1..])))
  }

  lemma {:induction false} BeforeIsTotal(a: string, b: string)
    ensures Before(a, b) || a == b || Before(b, a)
  {
    if a != "" && b != "" && a[0] == b[0] {
      BeforeIsTotal(a[1..], b[1..]);
      assert a == [a[0]] + a[1..] && b == [b[0]] + b[1..];
    }
  }

  lemma {:induction false} BeforeIsTransitive(a: string, b: string, c: string)
    requires Before(a, b) && Before(b, c)
    ensures Before(a, c)
  {
    if a != "" && a[0] == b[0] == c[0] {
      BeforeIsTransitive(a[1..], b[1..], c[1..]);
    }
  }

  lemma {:induction false} NotBeforeItself(a: string)
    ensures !Before(a, a)
  {
    if a != "" {
      NotBeforeItself(a[1..]);
    }
  }

  predicate StrictlySorted(xs: seq<string>) { forall i, j :: 0 <= i < j < |xs| ==> Before(xs[i], xs[j]) }

  /** Where a string belongs in a sorted list that does not contain it. */
  method PlaceOf(xs: seq<string>, x: string) returns (k: nat)
    requires StrictlySorted(xs) && x !in xs
    ensures k <= |xs| && StrictlySorted(xs[..k] + [x] + xs[k..])
  {
    k := 0;
    while k < |xs| && Before(xs[k], x)
      invariant k <= |xs|
      invariant forall i :: 0 <= i < k ==> Before(xs[i], x)
    {
      k := k + 1;
    }
    forall j | k <= j < |xs| ensures Before(x, xs[j]) {
      BeforeIsTotal(x, xs[k]);
      if k < j {
        BeforeIsTransitive(x, xs[k], xs[j]);
      }
    }
  }

  /** `sorted(s)` */
  method Sorted(s: set<string>) returns (xs: seq<string>)
    ensures StrictlySorted(xs) && forall x :: x in xs <==> x in s
  {
    xs := [];
    var rest := s;
    while rest != {}
      invariant rest <= s && StrictlySorted(xs)
      invariant forall x :: x in xs <==> x in s && x !in rest
      decreases |rest|
    {
      var x :| x in rest;
      rest := rest - {x};
      var k := PlaceOf(xs, x);
      assert forall y :: y in xs <==> y in xs[..k] || y in xs[k..] by {
        assert xs == xs[..k] + xs[k..];
      }
      xs := xs[..k] + [x] + xs[k..];
    }
  }

  /** The inner loop: adds the strings of one role's permissions. */
  method AddNames(before: set<string>, ghost earlier: seq<Role>, perms: set<Permission>) returns (granted: set<string>)
    requires NamesOf(before, earlier, {})
    ensures NamesOf(granted, earlier, perms)
  {
    granted := before;
    var rest := perms;
    ghost var added: set<Permission> := {};
    while rest != {}
      invariant rest + added == perms
      invariant NamesOf(granted, earlier, added)
      decreases |rest|
    {
      var p :| p in rest;
      GrantOne(granted, earlier, added, p);
      rest := rest - {p};
      added := added + {p};
      granted := granted + {PermissionName(p)};
    }
    assert added == perms;
  }

  /** Both loops, over the roles and over the permissions of each. */
  method NamesForRoles(roles: seq<Role>) returns (granted: set<string>)
    ensures NamesOf(granted, roles, {})
  {
    granted := {};
    var i := 0;
    while i < |roles|
      invariant i <= |roles|
      invariant NamesOf(granted, roles[..i], {})
    {
      granted := AddNames(granted, roles[..i], RolePermissions(roles[i]));
      NextRole(roles, i, granted);
      i := i + 1;
    }
    assert roles[..i] == roles;
  }

  /** The list for the roles, with a set filled in two nested loops: strictly sorted, and it has the string
      of a permission exactly when some role grants the permission, or always for a superuser. */
  method PermissionsForRoles(roles: seq<Role>, superuser: bool) returns (xs: seq<string>)
    ensures StrictlySorted(xs)
    ensures forall x :: x in xs ==> exists p :: PermissionName(p) == x
    ensures forall p :: PermissionName(p) in xs <==> superuser || RolesHavePermission(roles, p)
  {
    if superuser {
      EveryName();
      xs := Sorted(EveryPermissionName());
    } else {
      var granted := NamesForRoles(roles);
      NamesAreExact(granted, roles);
      xs := Sorted(granted);
    }
  }

  /** `{p.value for p in Permission}` */
  function EveryPermissionName(): set<string> { set p | p in ALL :: PermissionName(p) }

  lemma EveryName()
    ensures forall p :: PermissionName(p) in EveryPermissionName()
    ensures forall x :: x in EveryPermissionName() ==> exists p :: PermissionName(p) == x
  {
    forall p ensures PermissionName(p) in EveryPermissionName() {
      AllIsAll(p);
    }
  }

  lemma NamesAreExact(granted: set<string>, roles: seq<Role>)
    requires NamesOf(granted, roles, {})
    ensures forall x :: x in granted ==> exists p :: PermissionName(p) == x
    ensures forall p :: PermissionName(p) in granted <==> RolesHavePermission(roles, p)
  {
    forall p, q | RolesHavePermission(roles, q) && PermissionName(q) == PermissionName(p)
      ensures RolesHavePermission(roles, p)
    {
      SameName(p, q);
    }
  }

  /** The strings of the permissions that the roles grant, and of some more. */
  ghost predicate NamesOf(granted: set<string>, roles: seq<Role>, more: set<Permission>) {
    && (forall x :: x in granted ==> exists p :: PermissionName(p) == x && (RolesHavePermission(roles, p) || p in more))
    && (forall p :: RolesHavePermission(roles, p) || p in more ==> PermissionName(p) in granted)
  }

  lemma GrantOne(granted: set<string>, roles: seq<Role>, more: set<Permission>, p: Permission)
    requires NamesOf(granted, roles, more)
    ensures NamesOf(granted + {PermissionName(p)}, roles, more + {p})
  {
  }

  lemma OneMoreRole(roles: seq<Role>, i: nat, p: Permission)
    requires i < |roles|
    ensures RolesHavePermission(roles[..i + 1], p) <==>
              RolesHavePermission(roles[..i], p) || p in RolePermissions(roles[i])
  {
    var a, b := roles[..i], roles[..i + 1];
    if RolesHavePermission(b, p) {
      var k :| 0 <= k < |b| && RoleHasPermission(b[k], p);
      assert k < i ==> a[k] == b[k];
    }
    if RolesHavePermission(a, p) {
      var k :| 0 <= k < |a| && RoleHasPermission(a[k], p);
      assert b[k] == a[k];
    }
    assert b[i] == roles[i];
  }

  lemma NextRole(roles: seq<Role>, i: nat, granted: set<string>)
    requires i < |roles|
    ensures NamesOf(granted, roles[..i], RolePermissions(roles[i])) ==> NamesOf(granted, roles[..i + 1], {})
  {
    var a, b, more := roles[..i], roles[..i + 1], RolePermissions(roles[i]);
    forall p ensures RolesHavePermission(b, p) <==> RolesHavePermission(a, p) || p in more {
      OneMoreRole(roles, i, p);
    }
    if NamesOf(granted, a, more) {
      SameGrants(granted, a, more, b);
    }
  }

  lemma SameGrants(granted: set<string>, a: seq<Role>, more: set<Permission>, b: seq<Role>)
    requires NamesOf(granted, a, more)
    requires forall p :: RolesHavePermission(b, p) <==> RolesHavePermission(a, p) || p in more
    ensures NamesOf(granted, b, {})
  {
  }

  /** The list is determined by the roles: two strictly sorted lists with the same strings are equal. */
  lemma {:induction false} OneSortedList(xs: seq<string>, ys: seq<string>)
    requires StrictlySorted(xs) && StrictlySorted(ys) && forall x :: x in xs <==> x in ys
    ensures xs == ys
  {
    assert ys != [] ==> ys[0] in ys;
    if xs != [] {
      assert xs[0] in ys;
      FirstIsLeast(xs, ys);
      FirstIsLeast(ys, xs);
      if xs[0] != ys[0] {
        BeforeIsTransitive(xs[0], ys[0], xs[0]);
        NotBeforeItself(xs[0]);
      }
      TailHasTheRest(xs);
      TailHasTheRest(ys);
      OneSortedList(xs[1..], ys[1..]);
    }
  }

  lemma FirstIsLeast(xs: seq<string>, ys: seq<string>)
    requires StrictlySorted(xs) && xs != [] && ys != [] && ys[0] in xs
    ensures xs[0] == ys[0] || Before(xs[0], ys[0])
  {
  }

  lemma TailHasTheRest(xs: seq<string>)
    requires StrictlySorted(xs) && xs != []
    ensures StrictlySorted(xs[1..]) && forall x :: x in xs[1..] <==> x in xs && x != xs[0]
  {
    NotBeforeItself(xs[0]);
    assert xs == [xs[0]] + xs[1..];
    assert forall i :: 0 <= i < |xs[1..]| ==> xs[1..][i] == xs[i + 1];
  }
}
