/**
 * The client router: its route table and the `beforeEach` navigation guard, which picks,
 * from the target route and the auth store's flag, whether the navigation proceeds or is
 * redirected to another named route.
 */
module Router {
  import opened Wrappers
  import ClientAuth

  /** A route record: path, name and `meta.requiresAuth`. */
  datatype RouteRecord = RouteRecord(path: string, name: string, requiresAuth: bool)

  /** The table: `/login` is open, `/` (home) and `/about` require authentication. */
  const Routes: seq<RouteRecord> := [
    RouteRecord("/login", "login", false),
    RouteRecord("/", "home", true),
    RouteRecord("/about", "about", true)
  ]

  /**
   * The `to` (and `from`) location as a guard sees it. A path the table does not match has
   * no name and an empty `meta`.
   */
  datatype Location = Location(path: string, name: Option<string>, requiresAuth: bool, query: map<string, string>)

  /** What the guard passes to `next`: nothing (proceed) or `{ name }` (redirect). */
  datatype Decision = Proceed | RedirectTo(name: string)

  function FromRecord(r: RouteRecord): Location {
    Location(r.path, Some(r.name), r.requiresAuth, map[])
  }

  /** The location `next({ name })` navigates to: the table's route of that name. */
  function ResolveName(name: string): (r: Option<Location>)
    ensures r.Some? <==> exists i :: 0 <= i < |Routes| && Routes[i].name == name
    ensures r.Some? ==> exists i :: 0 <= i < |Routes| && Routes[i].name == name && r.value == FromRecord(Routes[i])
  {
    if name == "login" then Some(FromRecord(Routes[0]))
    else if name == "home" then Some(FromRecord(Routes[1]))
    else if name == "about" then Some(FromRecord(Routes[2]))
    else None
  }

  /** The `beforeEach` guard; `from` is part of the callback's signature and is never read. */
  function Guard(to: Location, from: Location, isLogged: bool): (d: Decision)
    ensures d == RedirectTo("login") <==> to.requiresAuth && !isLogged
    ensures d == RedirectTo("home") <==> !(to.requiresAuth && !isLogged) && to.name == Some("login") && isLogged
    ensures d == Proceed <==> !(to.requiresAuth && !isLogged) && !(to.name == Some("login") && isLogged)
  {
    if to.requiresAuth && !isLogged then RedirectTo("login")
    else if to.name == Some("login") && isLogged then RedirectTo("home")
    else Proceed
  }

  /** The guard as registered: it reads the store's `isAuthenticated` and nothing else of it. */
  method BeforeEach(to: Location, from: Location, store: ClientAuth.AuthStore) returns (d: Decision)
    ensures d == Guard(to, from, store.isAuthenticated)
  {
    var isLogged := store.isAuthenticated;
    d := Guard(to, from, isLogged);
  }

  /** The decision depends on the target's name and `requiresAuth` and on the flag only. */
  lemma GuardReadsOnlyNameAndMeta(to1: Location, to2: Location, from1: Location, from2: Location, isLogged: bool)
    requires to1.name == to2.name && to1.requiresAuth == to2.requiresAuth
    ensures Guard(to1, from1, isLogged) == Guard(to2, from2, isLogged)
  {
  }

  /** Every route of the table requires authentication except `login`. */
  lemma TableProtection(i: nat)
    requires i < |Routes|
    ensures Routes[i].requiresAuth <==> Routes[i].name != "login"
  {
  }

  /**
   * No redirect loop: the guard only redirects to routes of the table, and running it on
   * the redirect target under the same auth state lets the navigation proceed.
   */
  lemma NoRedirectLoop(to: Location, from: Location, isLogged: bool)
    requires Guard(to, from, isLogged).RedirectTo?
    ensures ResolveName(Guard(to, from, isLogged).name).Some?
    ensures Guard(ResolveName(Guard(to, from, isLogged).name).value, to, isLogged) == Proceed
  {
  }

  /**
   * Where a navigation ends: the target when the guard lets it through, otherwise the
   * route it redirects to (where, by NoRedirectLoop, the guard lets it through).
   */
  function Landing(to: Location, from: Location, isLogged: bool): (r: Location)
    ensures Guard(r, from, isLogged) == Proceed
    ensures !isLogged ==> !r.requiresAuth
    ensures isLogged ==> r.name != Some("login")
    ensures Guard(to, from, isLogged) == Proceed ==> r == to
  {
    match Guard(to, from, isLogged)
    case Proceed => to
    case RedirectTo(name) =>
      NoRedirectLoop(to, from, isLogged);
      ResolveName(name).value
  }

  /** Navigating to a table route while logged out lands on a route that needs no authentication. */
  lemma LoggedOutLandsOnLogin(i: nat, from: Location)
    requires i < |Routes|
    ensures Landing(FromRecord(Routes[i]), from, false).name == Some(if Routes[i].requiresAuth then "login" else Routes[i].name)
  {
  }

  /** Navigating to `login` while logged in lands on `home`. */
  lemma LoggedInSkipsLogin(from: Location)
    ensures Landing(ResolveName("login").value, from, true) == ResolveName("home").value
  {
  }
}
