/** The aside menu of a selected server: the id it builds links with, the
    test that highlights the "List short URLs" entry, and the two link targets. */
module AsideMenu {
  import opened Options
  import opened JsStrings

  /** The part of a server the menu reads. */
  datatype Server = Server(id: string)

  /** `selectedServer ? selectedServer.id : ''`. */
  function ServerId(selectedServer: Option<Server>): (r: string)
    ensures selectedServer.Some? ==> r == selectedServer.value.id
    ensures selectedServer.None? ==> r == ""
  {
    if selectedServer.Some? then selectedServer.value.id else ""
  }

  const ListShortUrls: string := "list-short-urls"

  /** `isListShortUrlsActive(match, { pathname })`; the `match` argument is
      not read. Field 2 of the path must exist and be the server id (a missing
      field is `undefined`, never equal to a string), and the path must mention
      `list-short-urls` somewhere. */
  function IsListShortUrlsActive(serverId: string, pathname: string): (r: bool)
    ensures r <==> |Split(pathname, '/')| > 2 && Split(pathname, '/')[2] == serverId
                   && Contains(pathname, ListShortUrls)
  {
    At(Split(pathname, '/'), 2) == Some(serverId) && IndexOf(pathname, ListShortUrls) != -1
  }

  /** `/server/${serverId}/list-short-urls/1`. */
  function ListLink(serverId: string): string
  {
    "/server/" + serverId + "/" + ListShortUrls + "/1"
  }

  /** `/server/${serverId}/create-short-url`. */
  function CreateLink(serverId: string): string
  {
    "/server/" + serverId + "/create-short-url"
  }

  /** A path with fewer than three `/`-separated fields is never active, not
      even for the empty id used when no server is selected. */
  lemma ShortPathNeverActive(serverId: string, pathname: string)
    requires |Split(pathname, '/')| < 3
    ensures !IsListShortUrlsActive(serverId, pathname)
  {
  }

  /** The paths of both links split into the fields `""`, `server`, the id and
      then the rest, when the id holds no `/`. */
  lemma LinkFields(serverId: string, rest: string)
    requires '/' !in serverId
    ensures Split("/server/" + serverId + "/" + rest, '/') == ["", "server", serverId] + Split(rest, '/')
  {
    var tail := serverId + ['/'] + rest;
    var mid := "server" + ['/'] + tail;
    assert "/server/" + serverId + "/" + rest == "" + ['/'] + mid by {
      assert "/server/" == "" + ['/'] + "server" + ['/'];
    }
    SplitLeadingField(serverId, rest, '/');
    SplitLeadingField("server", tail, '/');
    SplitLeadingField("", mid, '/');
  }

  /** Round trip: the list link built for a server id without `/` is active
      for that same id. */
  lemma ListLinkIsActive(serverId: string)
    requires '/' !in serverId
    ensures IsListShortUrlsActive(serverId, ListLink(serverId))
  {
    var rest := ListShortUrls + "/1";
    assert ListLink(serverId) == "/server/" + serverId + "/" + rest;
    LinkFields(serverId, rest);
    var k := |"/server/" + serverId + "/"|;
    assert ListLink(serverId)[k..k + |ListShortUrls|] == ListShortUrls;
    assert OccursAt(ListLink(serverId), ListShortUrls, k);
  }

  /** The list link of one server is not active while another server, whose
      id holds no `/` either, is selected. */
  lemma ListLinkOfOtherServerIsInactive(a: string, b: string)
    requires '/' !in a && '/' !in b && a != b
    ensures !IsListShortUrlsActive(b, ListLink(a))
  {
    var rest := ListShortUrls + "/1";
    assert ListLink(a) == "/server/" + a + "/" + rest;
    LinkFields(a, rest);
  }

  /** The create link never mentions `list-short-urls` unless the server id
      does. */
  lemma CreateLinkMentionsListOnlyThroughId(serverId: string)
    requires !Contains(serverId, ListShortUrls)
    ensures !Contains(CreateLink(serverId), ListShortUrls)
  {
    var s, n := CreateLink(serverId), |serverId|;
    var w := |ListShortUrls|;
    assert s == "/server/" + serverId + "/create-short-url";
    forall k | 0 <= k <= |s| ensures !OccursAt(s, ListShortUrls, k) {
      if k + w > |s| {
      } else if k < 8 {
        assert s[k] == "/server/"[k] != 'l';
        assert s[k..k + w][0] != ListShortUrls[0];
      } else if k + w <= 8 + n {
        assert s[k..k + w] == serverId[k - 8..k - 8 + w];
        assert !OccursAt(serverId, ListShortUrls, k - 8);
      } else if k <= 8 + n {
        assert s[8 + n] == '/';
        assert s[k..k + w][8 + n - k] == '/' != ListShortUrls[8 + n - k];
      } else {
        assert k - 9 - n <= 1;
        assert s[k] == "create-short-url"[k - 9 - n] != 'l';
        assert s[k..k + w][0] != ListShortUrls[0];
      }
    }
  }

  /** Hence the create link is not list-active for such an id. */
  lemma CreateLinkIsNotListActive(serverId: string)
    requires !Contains(serverId, ListShortUrls)
    ensures !IsListShortUrlsActive(serverId, CreateLink(serverId))
  {
    CreateLinkMentionsListOnlyThroughId(serverId);
  }

  /** With no server selected the links carry an empty id, and the list link
      is active for that empty id. */
  lemma NoServerLinks()
    ensures ListLink(ServerId(None)) == "/server//list-short-urls/1"
    ensures CreateLink(ServerId(None)) == "/server//create-short-url"
    ensures IsListShortUrlsActive(ServerId(None), ListLink(ServerId(None)))
  {
    var none: Option<Server> := None;
    assert ServerId(none) == "";
    assert ListLink("") == "/server//list-short-urls/1";
    assert CreateLink("") == "/server//create-short-url";
    ListLinkIsActive("");
  }
}
