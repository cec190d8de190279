/** skinny/webfinger.go: the WebFinger resolver of the HTTP gateway (section 4.4
    of RFC 7033). It answers lookups of local users only, with an `acct:` URI
    (RFC 7565) as subject and four links. */
module Webfinger {
  import opened Wrappers
  import opened Strings
  import opened Proto
  import Util

  datatype Link = Link(href: string, rel: string, linkType: string)

  datatype Resource = Resource(subject: string, links: seq<Link>)

  /** `wfResolver`. The text of the two RSS hrefs is produced with a `%s` verb
      applied to an integer, so it is left abstract as `rssHref(protocol, host, id)`. */
  datatype Resolver = Resolver(users: UsersGetter, hostname: string, debugHost: string,
                               rssHref: (string, string, int) -> string)

  /** `getStrippedHost`: the part before the first ':' (the port is dropped). */
  function GetStrippedHost(hostname: string): (r: string)
    ensures ':' !in r
    ensures HasPrefix(hostname, r)
    ensures r == hostname || hostname[|r|] == ':'
    ensures ':' !in hostname ==> r == hostname
  {
    var split := Split(hostname, ':');
    SplitPrefix(hostname, ':');
    split[0]
  }

  /** The first piece of a split is followed by the separator, or is everything. */
  lemma {:induction false} SplitPrefix(s: string, c: char)
    ensures HasPrefix(s, Split(s, c)[0])
    ensures Split(s, c)[0] == s || s[|Split(s, c)[0]|] == c
  {
    if s != [] && s[0] != c {
      SplitPrefix(s[1..], c);
      assert [s[0]] + s[1..] == s;
    }
  }

  /** The resolver a gateway serving `hostname` (possibly with a port) builds. */
  function NewResolver(users: UsersGetter, hostname: string, rssHref: (string, string, int) -> string): Resolver {
    Resolver(users, GetStrippedHost(hostname), hostname, rssHref)
  }

  /** `subject`: the user's `acct:` URI. */
  function Subject(wf: Resolver, user: UsersEntry): string {
    "acct:" + user.handle + "@" + wf.hostname
  }

  /** The subject without its `acct:` scheme is a username that parses back to
      the user's handle and the resolver's host. */
  lemma SubjectParses(wf: Resolver, user: UsersEntry)
    requires user.handle != "" && '@' !in user.handle && '@' !in wf.hostname && wf.hostname != ""
    requires !HasPrefix(wf.hostname, "http://") && !HasPrefix(wf.hostname, "https://")
    ensures var s := Subject(wf, user);
      HasPrefix(s, "acct:") && Util.ParseUsername(s[5..]) == Ok((user.handle, wf.hostname))
  {
    var s := Subject(wf, user);
    assert s[5..] == Util.FormatUsername(user.handle, wf.hostname);
    Util.ParseFormatUsername(user.handle, wf.hostname);
  }

  /** The host and protocol the links use: a hostname without '.' is a local
      development setup, served over plain http on `debugHost`. */
  function LinkBase(wf: Resolver): (r: (string, string))
    ensures '.' !in wf.hostname ==> r == ("http", wf.debugHost)
    ensures '.' in wf.hostname ==> r == ("https", wf.hostname)
  {
    if '.' !in wf.hostname then ("http", wf.debugHost) else ("https", wf.hostname)
  }

  /** `genLinks`. */
  function GenLinks(wf: Resolver, user: UsersEntry): (links: seq<Link>)
    ensures |links| == 4
    ensures links[0].rel == "http://webfinger.net/rel/profile-page" && links[0].linkType == "text/html"
    ensures links[1].rel == "self" && links[1].linkType == "application/activity+json"
    ensures links[2].rel == "feed" && links[2].linkType == "application/rss+xml"
    ensures links[3].rel == "alternative" && links[3].linkType == "application/rss+xml"
    ensures links[2].href == links[3].href
  {
    var (protocol, host) := LinkBase(wf);
    var html := Link(protocol + "://" + host + "/#/@" + user.handle, "http://webfinger.net/rel/profile-page", "text/html");
    var ap := Link(protocol + "://" + host + "/ap/@" + user.handle, "self", "application/activity+json");
    var rss := Link(wf.rssHref(protocol, host, user.globalId), "feed", "application/rss+xml");
    var altRss := Link(wf.rssHref(protocol, host, user.globalId), "alternative", "application/rss+xml");
    [html, ap, rss, altRss]
  }

  /** The profile page and actor links of a user under a production hostname, and
      under a development one. */
  lemma GenLinksHrefs(wf: Resolver, user: UsersEntry)
    ensures '.' in wf.hostname ==>
      GenLinks(wf, user)[0].href == "https://" + wf.hostname + "/#/@" + user.handle &&
      GenLinks(wf, user)[1].href == "https://" + wf.hostname + "/ap/@" + user.handle
    ensures '.' !in wf.hostname ==>
      GenLinks(wf, user)[0].href == "http://" + wf.debugHost + "/#/@" + user.handle &&
      GenLinks(wf, user)[1].href == "http://" + wf.debugHost + "/ap/@" + user.handle
  {
  }

  /** `FindUser`: also returns the users lookups it made. Only hosts this server
      answers for are looked up, and only as a local user (no host, `host_is_null`
      set, any id). */
  function FindUser(wf: Resolver, handle: string, host: string): (r: (Result<Resource, Util.LookupError>, seq<UsersMatch>))
    ensures host != wf.hostname && host != wf.debugHost ==> r == (Err(Util.UserNotFound), [])
    ensures host == wf.hostname || host == wf.debugHost ==> r.1 == [UsersMatch(handle, "", true, 0)]
    ensures r.0.Ok? <==>
      (host == wf.hostname || host == wf.debugHost) && Util.GetAuthorFromDb(handle, "", true, 0, wf.users).Ok?
    ensures r.0.Ok? ==>
      var u := Util.GetAuthorFromDb(handle, "", true, 0, wf.users).value;
      r.0.value == Resource(Subject(wf, u), GenLinks(wf, u))
  {
    if host != wf.hostname && host != wf.debugHost then (Err(Util.UserNotFound), [])
    else
      var calls := [UsersMatch(handle, "", true, 0)];
      match Util.GetAuthorFromDb(handle, "", true, 0, wf.users)
      case Err(e) => (Err(e), calls)
      case Ok(u) => (Ok(Resource(Subject(wf, u), GenLinks(wf, u))), calls)
  }

  /** A found user's subject names the handle that was looked up. */
  lemma FindUserSubject(wf: Resolver, handle: string, host: string)
    requires FindUser(wf, handle, host).0.Ok?
    ensures Util.GetAuthorFromDb(handle, "", true, 0, wf.users).value.handle == handle ==>
      FindUser(wf, handle, host).0.value.subject == "acct:" + handle + "@" + wf.hostname
  {
  }

  /** `DummyUser`: never a user, so that users cannot be enumerated. */
  function DummyUser(wf: Resolver, username: string, hostname: string): (r: Result<Resource, Util.LookupError>)
    ensures r == Err(Util.UserNotFound)
  {
    Err(Util.UserNotFound)
  }

  /** `IsNotFoundError`. */
  predicate IsNotFoundError(err: Util.LookupError) {
    err == Util.UserNotFound
  }

  /** The error of a rejected host, and of the dummy user, reads as "not found";
      a failed lookup reads so exactly when the database found no such user. */
  lemma NotFoundErrors(wf: Resolver, handle: string, host: string, username: string, hostname: string)
    ensures host != wf.hostname && host != wf.debugHost ==> IsNotFoundError(FindUser(wf, handle, host).0.error)
    ensures IsNotFoundError(DummyUser(wf, username, hostname).error)
    ensures (host == wf.hostname || host == wf.debugHost) && FindUser(wf, handle, host).0.Err? ==>
      (IsNotFoundError(FindUser(wf, handle, host).0.error) <==>
       Util.UserFind(UsersMatch(handle, "", true, 0), wf.users) == Ok([]))
  {
  }
}
