/**
  Navigation helpers (`bpslibrary/utils/nav.py`): choosing where to send
  the browser back to, and checking that a URL stays on this site.

  `urlparse` and `urljoin` are taken as given functions; only the scheme and
  the network location of a parsed URL are used. The request is reduced to
  the values the helpers read.
 */
module Nav {
  import opened Wrappers
  import opened Text

  /** The parts of `urlparse(url)` that are compared. */
  datatype UrlParts = UrlParts(scheme: string, netloc: string)

  /** `urllib.parse.urlparse` and `urllib.parse.urljoin`. */
  datatype UrlLib = UrlLib(parse: string -> UrlParts, join: (string, string) -> string)

  /** What `redirect_to_previous` reads from the request: the `next`
      argument, the referrer, the URL being served and the site's root URL. */
  datatype Request = Request(next: Option<string>, referrer: Option<string>, url: string, hostUrl: string)

  /** The schemes a redirect may use. */
  const SafeSchemes: seq<string> := ["http", "https"]

  /** `is_safe_url(target_url)`: the target, resolved against the site's
      root URL, is on the site's own host and uses http or https. */
  predicate IsSafeUrl(lib: UrlLib, hostUrl: string, target: string)
  {
    var host := lib.parse(hostUrl);
    var check := lib.parse(lib.join(hostUrl, target));
    host.netloc == check.netloc && check.scheme in SafeSchemes
  }

  /** A target that `urljoin` leaves as it is, naming another host, is not safe. */
  lemma OtherHostUnsafe(lib: UrlLib, hostUrl: string, target: string)
    requires lib.join(hostUrl, target) == target
    requires lib.parse(target).netloc != lib.parse(hostUrl).netloc
    ensures !IsSafeUrl(lib, hostUrl, target)
  {
  }

  /** Only the joined URL matters: two targets that resolve to the same URL
      are equally safe. */
  lemma SafetyOfJoined(lib: UrlLib, hostUrl: string, t1: string, t2: string)
    requires lib.join(hostUrl, t1) == lib.join(hostUrl, t2)
    ensures IsSafeUrl(lib, hostUrl, t1) <==> IsSafeUrl(lib, hostUrl, t2)
  {
  }

  /** Python truthiness of an optional string: present and not empty. */
  predicate Given(s: Option<string>)
  {
    s.Some? && s.value != ""
  }

  /** `redirect_to_previous(avoid_current)`: the URL the browser is sent to,
      where "" stands for the home page. `loginUrl` is
      `url_for(login_manager.login_view)`. */
  function RedirectToPrevious(req: Request, avoidCurrent: bool, authenticated: bool, loginUrl: string, lib: UrlLib)
    : (r: string)
    // The target is the home page or a `next`/referrer value that passed the check.
    ensures r == ""
         || (Given(req.next) && r == req.next.value && IsSafeUrl(lib, req.hostUrl, r))
         || (Given(req.referrer) && r == req.referrer.value && IsSafeUrl(lib, req.hostUrl, r))
    // A safe `next` wins over the referrer.
    ensures Given(req.next) && IsSafeUrl(lib, req.hostUrl, req.next.value) ==> r in {"", req.next.value}
    // The referrer is used when `next` is not given or not safe.
    ensures (&& !(Given(req.next) && IsSafeUrl(lib, req.hostUrl, req.next.value))
             && Given(req.referrer) && IsSafeUrl(lib, req.hostUrl, req.referrer.value))
         ==> r in {"", req.referrer.value}
    // With `avoid_current`, the browser is never sent back to the same page.
    ensures avoidCurrent && r != "" ==> r != req.url
    // A logged-in user is never sent to the login page.
    ensures authenticated && r != "" ==> !IsSubstring(loginUrl, r)
    // Only those two rules turn a chosen target into the home page.
    ensures (&& Given(req.next) && IsSafeUrl(lib, req.hostUrl, req.next.value)
             && !(avoidCurrent && req.url == req.next.value)
             && !(authenticated && IsSubstring(loginUrl, req.next.value)))
         ==> r == req.next.value
    // Likewise a safe referrer is returned when `next` is unusable and neither rule clears it.
    ensures (&& !(Given(req.next) && IsSafeUrl(lib, req.hostUrl, req.next.value))
             && Given(req.referrer) && IsSafeUrl(lib, req.hostUrl, req.referrer.value)
             && !(avoidCurrent && req.url == req.referrer.value)
             && !(authenticated && IsSubstring(loginUrl, req.referrer.value)))
         ==> r == req.referrer.value
  {
    var chosen :=
      if Given(req.next) && IsSafeUrl(lib, req.hostUrl, req.next.value) then req.next.value
      else if Given(req.referrer) && IsSafeUrl(lib, req.hostUrl, req.referrer.value) then req.referrer.value
      else "";
    var notCurrent := if avoidCurrent && req.url == chosen then "" else chosen;
    if authenticated && IsSubstring(loginUrl, notCurrent) then "" else notCurrent
  }
}
