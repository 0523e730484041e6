/** The top-level application component: which route table it declares for
    the registered servers, where a lone server redirects, the home flag, the
    update banner, and its two effects — fetching the remote servers when the
    servers known at the first render were none, and applying the theme. */
module App {
  import opened Options
  import opened JsStrings
  import JsSet

  /** `Object.keys(servers)`: the ids of the registered servers, in insertion order. */
  type ServersMap = seq<string>

  /** The part of the settings the component reads: `settings.ui?.theme`. */
  datatype UiSettings = UiSettings(theme: Option<string>)
  datatype Settings = Settings(ui: Option<UiSettings>)

  /** The component's props. A callback is represented by its identity, a
      number, since an effect compares its dependencies by identity. */
  datatype Props = Props(servers: ServersMap, fetchServers: nat, settings: Settings, appUpdated: bool)

  /** The elements a route can render. */
  datatype Element =
    | Navigate(to: string, replace: bool)
    | ShlinkWebComponentContainer
    | SettingsSection
    | NotFound
    | Home
    | ManageServers
    | CreateServer
    | EditServer

  /** An index route, or a route with a path pattern. */
  datatype RoutePath = Index | Path(pattern: string)

  datatype Route = Route(path: RoutePath, element: Element)

  /** `location.pathname === '/'`. */
  function IsHome(pathname: string): (r: bool)
    ensures r <==> pathname == "/"
  {
    pathname == "/"
  }

  /** `/server/${Object.keys(servers)[0] ?? ''}/`. */
  function FirstServerIdUrl(servers: ServersMap): (r: string)
    ensures |servers| > 0 ==> r == "/server/" + servers[0] + "/"
    ensures |servers| == 0 ==> r == "/server//"
  {
    var first := At(servers, 0);
    "/server/" + (if first.Some? then first.value else "") + "/"
  }

  /** The routes declared when exactly one server is registered. */
  function SingleServerRoutes(firstServerIdUrl: string): seq<Route>
  {
    [ Route(Path("/"), Navigate(firstServerIdUrl, true)),
      Route(Path("/server/:serverId/*"), ShlinkWebComponentContainer),
      Route(Path("/settings/*"), SettingsSection),
      Route(Path("*"), NotFound) ]
  }

  /** The routes declared otherwise, with no server or several. */
  function MultiServerRoutes(): seq<Route>
  {
    [ Route(Index, Home),
      Route(Path("/settings/*"), SettingsSection),
      Route(Path("/manage-servers"), ManageServers),
      Route(Path("/server/create"), CreateServer),
      Route(Path("/server/:serverId/edit"), EditServer),
      Route(Path("/server/:serverId/*"), ShlinkWebComponentContainer),
      Route(Path("*"), NotFound) ]
  }

  /** The route table chosen by the number of servers. */
  function RouteTable(servers: ServersMap): seq<Route>
  {
    if |servers| == 1 then SingleServerRoutes(FirstServerIdUrl(servers)) else MultiServerRoutes()
  }

  /** The paths a table declares. */
  function Paths(routes: seq<Route>): (r: seq<RoutePath>)
    ensures |r| == |routes|
    ensures forall i :: 0 <= i < |routes| ==> r[i] == routes[i].path
  {
    seq(|routes|, i requires 0 <= i < |routes| => routes[i].path)
  }

  /** Some route of the table redirects. */
  predicate Redirects(routes: seq<Route>)
  {
    exists i :: 0 <= i < |routes| && routes[i].element.Navigate?
  }

  /** The single-server table declares the root, the server section, the
      settings section and the catch-all; the other one declares the index
      route, the settings section, server management, server creation, server
      editing, the server section and the catch-all. Neither declares a path
      twice. */
  lemma RouteTablePaths(servers: ServersMap)
    ensures JsSet.NoDup(Paths(RouteTable(servers)))
    ensures |servers| == 1 ==>
      Paths(RouteTable(servers)) == [Path("/"), Path("/server/:serverId/*"), Path("/settings/*"), Path("*")]
    ensures |servers| != 1 ==> Route(Index, Home) in RouteTable(servers)
    ensures |servers| != 1 ==>
      Paths(RouteTable(servers)) == [Index, Path("/settings/*"), Path("/manage-servers"), Path("/server/create"),
                                     Path("/server/:serverId/edit"), Path("/server/:serverId/*"), Path("*")]
  {
  }

  /** A redirect is declared exactly when one server is registered. */
  lemma RedirectIffOneServer(servers: ServersMap)
    ensures Redirects(RouteTable(servers)) <==> |servers| == 1
  {
    var t := RouteTable(servers);
    if |servers| == 1 {
      assert t[0].element.Navigate?;
    } else {
      assert t == MultiServerRoutes();
    }
  }

  /** With exactly one server, `/` redirects, replacing the history entry, to
      `/server/<its id>/`, and the home view is not declared. */
  lemma LoneServerRedirect(id: string)
    ensures var t := RouteTable([id]);
      forall i :: 0 <= i < |t| && t[i].path == Path("/") ==>
        t[i].element == Navigate("/server/" + id + "/", true)
    ensures Route(Path("/"), Navigate("/server/" + id + "/", true)) in RouteTable([id])
    ensures forall i :: 0 <= i < |RouteTable([id])| ==> RouteTable([id])[i].element != Home
  {
    assert FirstServerIdUrl([id]) == "/server/" + id + "/";
    assert RouteTable([id])[0] == Route(Path("/"), Navigate("/server/" + id + "/", true));
  }

  /** With no server the first-server URL is `/server//`, but the multi-server
      table is declared, so that URL is never a redirect target. */
  lemma NoServersNeverRedirect()
    ensures FirstServerIdUrl([]) == "/server//"
    ensures !Redirects(RouteTable([]))
    ensures Route(Index, Home) in RouteTable([])
  {
    RedirectIffOneServer([]);
    assert RouteTable([])[0] == Route(Index, Home);
  }

  // ---------------------------------------------------------------------------
  // Theme

  /** `settings.ui?.theme`: the dependency of the theme effect. */
  function ThemeSetting(settings: Settings): (r: Option<string>)
    ensures r.Some? <==> settings.ui.Some? && settings.ui.value.theme.Some?
  {
    match settings.ui
    case None => None
    case Some(ui) => ui.theme
  }

  /** `settings.ui?.theme ?? getSystemPreferredTheme()`, the system preference
      being an input. */
  function AppliedTheme(settings: Settings, systemPreferred: string): (r: string)
    ensures settings.ui.Some? && settings.ui.value.theme.Some? ==> r == settings.ui.value.theme.value
    ensures settings.ui.None? || settings.ui.value.theme.None? ==> r == systemPreferred
  {
    var theme := ThemeSetting(settings);
    if theme.Some? then theme.value else systemPreferred
  }

  /** The applied theme depends on the settings only through the effect's
      dependency, so re-running the effect only when it changes loses nothing. */
  lemma AppliedThemeFollowsDependency(a: Settings, b: Settings, systemPreferred: string)
    requires ThemeSetting(a) == ThemeSetting(b)
    ensures AppliedTheme(a, systemPreferred) == AppliedTheme(b, systemPreferred)
  {
  }

  // ---------------------------------------------------------------------------
  // Rendering

  /** What one render produces: whether the wrapper is centred (the home
      flag), the declared routes, whether the update banner is open, and the
      servers passed to the header. */
  datatype View = View(centered: bool, routes: seq<Route>, bannerOpen: bool, headerServers: ServersMap)

  function Render(props: Props, pathname: string): (v: View)
    ensures v.centered <==> pathname == "/"
    ensures v.bannerOpen <==> props.appUpdated
    ensures v.headerServers == props.servers
    ensures Redirects(v.routes) <==> |props.servers| == 1
  {
    RedirectIffOneServer(props.servers);
    View(IsHome(pathname), RouteTable(props.servers), props.appUpdated, props.servers)
  }

  /** The end-to-end case: with the single server `a`, `/` leads to
      `/server/a/` and the home view is not declared. */
  lemma SingleServerScenario(settings: Settings, appUpdated: bool)
    ensures var v := Render(Props(["a"], 0, settings, appUpdated), "/");
      && Route(Path("/"), Navigate("/server/a/", true)) in v.routes
      && Route(Path("/server/:serverId/*"), ShlinkWebComponentContainer) in v.routes
      && Route(Index, Home) !in v.routes
  {
    LoneServerRedirect("a");
    assert "/server/" + "a" + "/" == "/server/a/";
    assert RouteTable(["a"])[1] == Route(Path("/server/:serverId/*"), ShlinkWebComponentContainer);
  }

  // ---------------------------------------------------------------------------
  // The mounted component and its effects

  /** `Object.keys(initialServers.current).length === 0`. */
  function ShouldFetchServers(initialServers: ServersMap): (r: bool)
    ensures r <==> initialServers == []
  {
    |initialServers| == 0
  }

  /** A mounted App. `initialServers` is the ref captured at the first render
      and never reassigned. Each effect keeps the dependencies it last ran
      with and runs again only when they change; `fetchServersCalls` counts
      the calls of `fetchServers` and `appliedThemes` records the themes
      written to the markup, in order. */
  class Component {
    const initialServers: ServersMap
    var props: Props
    var fetchEffectDependency: nat
    var themeEffectDependency: Option<string>
    var fetchServersCalls: nat
    var appliedThemes: seq<string>

    /** The first render, followed by both effects. */
    constructor (props: Props, systemPreferred: string)
      ensures initialServers == props.servers && this.props == props
      ensures fetchEffectDependency == props.fetchServers
      ensures fetchServersCalls == if ShouldFetchServers(props.servers) then 1 else 0
      ensures themeEffectDependency == ThemeSetting(props.settings)
      ensures appliedThemes == [AppliedTheme(props.settings, systemPreferred)]
    {
      initialServers := props.servers;
      this.props := props;
      fetchEffectDependency := props.fetchServers;
      fetchServersCalls := if ShouldFetchServers(props.servers) then 1 else 0;
      themeEffectDependency := ThemeSetting(props.settings);
      appliedThemes := [AppliedTheme(props.settings, systemPreferred)];
    }

    /** The view of the current render at `pathname`. */
    function CurrentView(pathname: string): (v: View)
      reads this
      ensures v.bannerOpen <==> props.appUpdated
    {
      Render(props, pathname)
    }

    /** A later render with new props, followed by the effects whose
      dependencies changed. The fetch effect reads the captured initial
      servers, never the current ones. */
    method Rerender(props: Props, systemPreferred: string)
      modifies this
      ensures this.props == props
      ensures fetchEffectDependency == props.fetchServers
      ensures fetchServersCalls == old(fetchServersCalls) +
        (if props.fetchServers != old(fetchEffectDependency) && ShouldFetchServers(initialServers) then 1 else 0)
      ensures themeEffectDependency == ThemeSetting(props.settings)
      ensures appliedThemes == old(appliedThemes) +
        (if ThemeSetting(props.settings) != old(themeEffectDependency)
         then [AppliedTheme(props.settings, systemPreferred)] else [])
    {
      this.props := props;
      if props.fetchServers != fetchEffectDependency {
        fetchEffectDependency := props.fetchServers;
        if ShouldFetchServers(initialServers) {
          fetchServersCalls := fetchServersCalls + 1;
        }
      }
      if ThemeSetting(props.settings) != themeEffectDependency {
        themeEffectDependency := ThemeSetting(props.settings);
        appliedThemes := appliedThemes + [AppliedTheme(props.settings, systemPreferred)];
      }
    }
  }

  /** The last of the renders `0..n` at which the theme effect ran: the mount,
      or a later render whose theme dependency differs from the previous
      render's. */
  function LastThemeRun(renders: seq<Props>, n: nat): (k: nat)
    requires n < |renders|
    ensures k <= n
    ensures ThemeSetting(renders[k].settings) == ThemeSetting(renders[n].settings)
    ensures k == 0 || ThemeSetting(renders[k].settings) != ThemeSetting(renders[k - 1].settings)
    ensures forall j :: k < j <= n ==> ThemeSetting(renders[j].settings) == ThemeSetting(renders[j - 1].settings)
  {
    if n == 0 then 0
    else if ThemeSetting(renders[n].settings) != ThemeSetting(renders[n - 1].settings) then n
    else LastThemeRun(renders, n - 1)
  }

  /** A whole session: mount with `renders[0]`, then render with each later
      element, the `fetchServers` callback keeping its identity and
      `preferences[i]` being the system preference at render `i`. The servers
      are fetched exactly once when there were none at the first render and
      never otherwise, whatever the servers become later. The theme last
      written to the markup is the one applied at the last render whose theme
      dependency changed, with the system preference of that render; when the
      preference stays the same, that is the theme the current settings call
      for. */
  method Session(renders: seq<Props>, preferences: seq<string>)
    returns (fetchServersCalls: nat, markupTheme: string)
    requires |renders| > 0 && |preferences| == |renders|
    requires forall i :: 0 <= i < |renders| ==> renders[i].fetchServers == renders[0].fetchServers
    ensures fetchServersCalls == if renders[0].servers == [] then 1 else 0
    ensures var k := LastThemeRun(renders, |renders| - 1);
      markupTheme == AppliedTheme(renders[k].settings, preferences[k])
    ensures (forall i :: 0 <= i < |preferences| ==> preferences[i] == preferences[0]) ==>
      markupTheme == AppliedTheme(renders[|renders| - 1].settings, preferences[0])
  {
    var app := new Component(renders[0], preferences[0]);
    var i := 1;
    while i < |renders|
      invariant 1 <= i <= |renders|
      invariant app.initialServers == renders[0].servers
      invariant app.fetchEffectDependency == renders[0].fetchServers
      invariant app.fetchServersCalls == if renders[0].servers == [] then 1 else 0
      invariant app.props == renders[i - 1]
      invariant app.themeEffectDependency == ThemeSetting(app.props.settings)
      invariant |app.appliedThemes| > 0
      invariant var k := LastThemeRun(renders, i - 1);
        app.appliedThemes[|app.appliedThemes| - 1] == AppliedTheme(renders[k].settings, preferences[k])
    {
      app.Rerender(renders[i], preferences[i]);
      i := i + 1;
    }
    fetchServersCalls := app.fetchServersCalls;
    markupTheme := app.appliedThemes[|app.appliedThemes| - 1];
    var k := LastThemeRun(renders, |renders| - 1);
    AppliedThemeFollowsDependency(renders[k].settings, renders[|renders| - 1].settings, preferences[k]);
  }

  /** A change of the system preference alone is not applied: with no theme
      set, mounting under `light` and rendering again under `dark` leaves the
      markup at `light`. */
  lemma SystemPreferenceChangeIsNotApplied(p: Props)
    requires p.settings == Settings(None)
    ensures var k := LastThemeRun([p, p], 1);
      AppliedTheme([p, p][k].settings, ["light", "dark"][k]) == "light"
    ensures AppliedTheme(p.settings, "dark") == "dark"
  {
    assert LastThemeRun([p, p], 1) == 0;
  }
}
