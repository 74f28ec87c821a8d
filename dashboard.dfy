/**
 * The logic of the account dashboard, without its React components: the
 * user-agent icon classifiers, the IP and key truncations, the expiry sort of
 * fetched token lists, the optimistic revoke with rollback, the captcha guard on
 * API-key creation and the marking of the current session.
 *
 * The data cache (SWR) of one token list is a `TokenPanel` object: `mutate(list)`
 * sets its `cache` and, unless passed `false`, also requests a revalidation;
 * `mutate()` is an opaque revalidation request; requests are counted, and the
 * result of each server call (`revokeToken`, `createToken`) is a parameter.
 */
module Dashboard {
  import opened Wrappers

  // ---------------------------------------------------------------------------
  // String search (`String.prototype.indexOf`)
  // ---------------------------------------------------------------------------

  /** `sub` occurs in `s` starting at position `i`. */
  predicate OccursAt(s: string, sub: string, i: nat) {
    i + |sub| <= |s| && s[i..i + |sub|] == sub
  }

  predicate Contains(s: string, sub: string) {
    exists i: nat :: i <= |s| && OccursAt(s, sub, i)
  }

  /** `s.indexOf(sub, from)`: the first occurrence at or after `from`, or -1. */
  function IndexFrom(s: string, sub: string, from: nat): (r: int)
    requires from <= |s|
    ensures r == -1 || (from <= r && OccursAt(s, sub, r))
    ensures forall j: nat :: from <= j && (r == -1 || j < r) ==> !OccursAt(s, sub, j)
    decreases |s| - from
  {
    if OccursAt(s, sub, from) then from
    else if from == |s| then -1
    else IndexFrom(s, sub, from + 1)
  }

  /** `s.indexOf(sub)`; the dashboard only asks whether it is `> -1`. */
  function IndexOf(s: string, sub: string): (r: int)
    ensures r > -1 <==> Contains(s, sub)
    ensures r > -1 ==> OccursAt(s, sub, r)
  {
    IndexFrom(s, sub, 0)
  }

  // ---------------------------------------------------------------------------
  // User-agent icons (`getBrowserIconName`, `getOSIconName`)
  // ---------------------------------------------------------------------------

  /** The position of the first marker that occurs in `s`, or -1 when none does. */
  function FirstMarker(markers: seq<string>, s: string): (k: int)
    ensures -1 <= k < |markers|
    ensures k >= 0 ==> Contains(s, markers[k])
    ensures forall j :: 0 <= j < |markers| && (k == -1 || j < k) ==> !Contains(s, markers[j])
  {
    if markers == [] then -1
    else if Contains(s, markers[0]) then 0
    else
      var k := FirstMarker(markers[1..], s);
      if k == -1 then -1 else k + 1
  }

  /** The first matching marker is the one `FirstMarker` names, and no other. */
  lemma FirstMarkerIs(markers: seq<string>, s: string, k: nat)
    requires k < |markers| && Contains(s, markers[k])
    requires forall j :: 0 <= j < k ==> !Contains(s, markers[j])
    ensures FirstMarker(markers, s) == k
  {
  }

  const QuestionIcon: string := "i-solar:question-square-line-duotone"
  const LinuxIcon: string := "i-simple-icons:linux"

  /** Browser-name markers, in the order they are tried, and the icon of each. */
  const BrowserMarkers: seq<string> := ["Chrome", "Firefox", "Safari", "Edge", "IE", "Opera", "Arc", "WeChat"]
  const BrowserIcons: seq<string> := [
    "i-simple-icons:googlechrome",
    "i-simple-icons:firefoxbrowser",
    "i-simple-icons:safari",
    "i-simple-icons:microsoftedge",
    "i-simple-icons:internetexplorer",
    "i-simple-icons:opera",
    "i-simple-icons:arc",
    "i-simple-icons:wechat"
  ]

  /** OS-name markers, in the order they are tried, and the icon of each. */
  const OsMarkers: seq<string> := ["Windows", "Android", "mac", "Harmony", "Chrome", "iOS"]
  const OsIcons: seq<string> := [
    "i-simple-icons:windows10",
    "simple-icons:android",
    "i-simple-icons:apple",
    "simple-icons:huawei",
    "i-simple-icons:googlechrome",
    "simple-icons:ios"
  ]

  /**
   * `getBrowserIconName`: an empty name gives the question icon; otherwise the
   * first browser marker the name contains decides; no match gives the question icon.
   */
  function BrowserIconName(browser: string): (icon: string)
    ensures browser == "" ==> icon == QuestionIcon
    ensures icon == QuestionIcon || icon in BrowserIcons
  {
    if browser == "" then QuestionIcon
    else if IndexOf(browser, "Chrome") > -1 then "i-simple-icons:googlechrome"
    else if IndexOf(browser, "Firefox") > -1 then "i-simple-icons:firefoxbrowser"
    else if IndexOf(browser, "Safari") > -1 then "i-simple-icons:safari"
    else if IndexOf(browser, "Edge") > -1 then "i-simple-icons:microsoftedge"
    else if IndexOf(browser, "IE") > -1 then "i-simple-icons:internetexplorer"
    else if IndexOf(browser, "Opera") > -1 then "i-simple-icons:opera"
    else if IndexOf(browser, "Arc") > -1 then "i-simple-icons:arc"
    else if IndexOf(browser, "WeChat") > -1 then "i-simple-icons:wechat"
    else QuestionIcon
  }

  /**
   * `getOSIconName`: an empty name gives the question icon; otherwise the first OS
   * marker the name contains decides; no match gives the Linux icon.
   */
  function OsIconName(os: string): (icon: string)
    ensures os == "" ==> icon == QuestionIcon
    ensures icon == QuestionIcon || icon == LinuxIcon || icon in OsIcons
  {
    if os == "" then QuestionIcon
    else if IndexOf(os, "Windows") > -1 then "i-simple-icons:windows10"
    else if IndexOf(os, "Android") > -1 then "simple-icons:android"
    else if IndexOf(os, "mac") > -1 then "i-simple-icons:apple"
    else if IndexOf(os, "Harmony") > -1 then "simple-icons:huawei"
    else if IndexOf(os, "Chrome") > -1 then "i-simple-icons:googlechrome"
    else if IndexOf(os, "iOS") > -1 then "simple-icons:ios"
    else LinuxIcon
  }

  /**
   * The browser icon is decided by the first marker, in table order, that the
   * name contains; the question icon stands for an empty name or no match.
   */
  lemma BrowserIconFollowsMarkers(browser: string)
    ensures browser != "" ==>
      var k := FirstMarker(BrowserMarkers, browser);
      BrowserIconName(browser) == if k == -1 then QuestionIcon else BrowserIcons[k]
    ensures BrowserIconName(browser) == QuestionIcon <==>
      browser == "" || FirstMarker(BrowserMarkers, browser) == -1
  {
    var m := BrowserMarkers;
    if browser == "" {
    } else if Contains(browser, m[0]) {
      FirstMarkerIs(m, browser, 0);
    } else if Contains(browser, m[1]) {
      FirstMarkerIs(m, browser, 1);
    } else if Contains(browser, m[2]) {
      FirstMarkerIs(m, browser, 2);
    } else if Contains(browser, m[3]) {
      FirstMarkerIs(m, browser, 3);
    } else if Contains(browser, m[4]) {
      FirstMarkerIs(m, browser, 4);
    } else if Contains(browser, m[5]) {
      FirstMarkerIs(m, browser, 5);
    } else if Contains(browser, m[6]) {
      FirstMarkerIs(m, browser, 6);
    } else if Contains(browser, m[7]) {
      FirstMarkerIs(m, browser, 7);
    }
  }

  /**
   * The OS icon is decided by the first marker, in table order, that the name
   * contains; the Linux icon stands for a non-empty name with no match.
   */
  lemma OsIconFollowsMarkers(os: string)
    ensures os != "" ==>
      var k := FirstMarker(OsMarkers, os);
      OsIconName(os) == if k == -1 then LinuxIcon else OsIcons[k]
    ensures OsIconName(os) == LinuxIcon <==> os != "" && FirstMarker(OsMarkers, os) == -1
  {
    var m := OsMarkers;
    if os == "" {
    } else if Contains(os, m[0]) {
      FirstMarkerIs(m, os, 0);
    } else if Contains(os, m[1]) {
      FirstMarkerIs(m, os, 1);
    } else if Contains(os, m[2]) {
      FirstMarkerIs(m, os, 2);
    } else if Contains(os, m[3]) {
      FirstMarkerIs(m, os, 3);
    } else if Contains(os, m[4]) {
      FirstMarkerIs(m, os, 4);
    } else if Contains(os, m[5]) {
      FirstMarkerIs(m, os, 5);
    }
  }

  // ---------------------------------------------------------------------------
  // Display truncations
  // ---------------------------------------------------------------------------

  function Min(a: int, b: int): (m: int) {
    if a <= b then a else b
  }

  function Clamp(i: int, length: nat): (c: nat)
    ensures c <= length
  {
    if i < 0 then 0 else if i > length then length else i
  }

  /**
   * `s.substring(start, end)`: both bounds are clamped to `[0, |s|]` and swapped
   * when the start is past the end.
   */
  function Substring(s: string, start: int, end: int): (sub: string)
  {
    var a, b := Clamp(start, |s|), Clamp(end, |s|);
    if a <= b then s[a..b] else s[b..a]
  }

  /**
   * The IP column: an address shorter than 20 characters is shown whole,
   * a longer one as its first 17 characters and `...`.
   */
  function IpDisplay(ip: string): (shown: string)
    ensures |shown| <= 20
    ensures |ip| < 20 ==> shown == ip
    ensures |ip| >= 20 ==> |shown| == 20 && shown[..17] == ip[..17] && shown[17..] == "..."
  {
    if |ip| < 20 then ip else Substring(ip, 0, 17) + "..."
  }

  /** Shortening is idempotent: a shown address is shown as it is. */
  lemma IpDisplayIdempotent(ip: string)
    ensures IpDisplay(IpDisplay(ip)) == IpDisplay(ip)
  {
  }

  /** The IP line of a token label: shown only when the request IP is a non-empty string. */
  function IpLabel(requestIp: Option<string>): (line: Option<string>)
    ensures line.None? <==> requestIp.None? || requestIp.value == ""
    ensures line.Some? ==> line.value == IpDisplay(requestIp.value)
  {
    if requestIp.None? || requestIp.value == "" then None else Some(IpDisplay(requestIp.value))
  }

  /** The key column: `_id.substring(0, 10) + '...'`. */
  function KeyDisplay(id: string): (shown: string)
    ensures |shown| == Min(|id|, 10) + 3
    ensures shown[..|shown| - 3] == id[..Min(|id|, 10)] && shown[|shown| - 3..] == "..."
  {
    Substring(id, 0, 10) + "..."
  }

  /** Two keys are shown alike exactly when their first ten characters agree. */
  lemma KeyDisplayAlikeIff(id1: string, id2: string)
    ensures KeyDisplay(id1) == KeyDisplay(id2) <==> id1[..Min(|id1|, 10)] == id2[..Min(|id2|, 10)]
  {
  }

  // ---------------------------------------------------------------------------
  // Tokens and the expiry sort
  // ---------------------------------------------------------------------------

  /** A session or API token as `getUserTokens` returns it; `expires` in milliseconds. */
  datatype Token = Token(
    id: string,
    expires: int,
    name: Option<string>,
    userAgent: Option<string>,
    requestIp: Option<string>)

  predicate SortedByExpiry(s: seq<Token>) {
    forall i, j :: 0 <= i < j < |s| ==> s[i].expires <= s[j].expires
  }

  /** All of `a[..hi]` is ordered, except that position `hole` may be out of place with respect to its left side. */
  predicate SortedBut(a: seq<Token>, hi: nat, hole: nat)
    requires hi <= |a|
  {
    forall p, q :: 0 <= p < q < hi && q != hole ==> a[p].expires <= a[q].expires
  }

  /** `s` with the adjacent positions `j - 1` and `j` exchanged. */
  function SwapAdjacent(s: seq<Token>, j: nat): (t: seq<Token>)
    requires 0 < j < |s|
    ensures |t| == |s| && multiset(t) == multiset(s)
  {
    s[j - 1 := s[j]][j := s[j - 1]]
  }

  lemma SortedButStart(s: seq<Token>, i: nat)
    requires i < |s| && SortedByExpiry(s[..i])
    ensures SortedBut(s, i + 1, i)
  {
  }

  /** Moving the out-of-place element one step to the left keeps the rest ordered. */
  lemma SortedButSwap(s: seq<Token>, hi: nat, j: nat)
    requires 0 < j < hi <= |s| && SortedBut(s, hi, j)
    requires s[j - 1].expires > s[j].expires
    ensures SortedBut(SwapAdjacent(s, j), hi, j - 1)
  {
  }

  lemma SortedButDone(s: seq<Token>, hi: nat, j: nat)
    requires j < hi <= |s| && SortedBut(s, hi, j)
    requires j == 0 || s[j - 1].expires <= s[j].expires
    ensures SortedByExpiry(s[..hi])
  {
  }

  /** `r.sort((a, b) => a.expires - b.expires)`, in place: an insertion sort. */
  method SortByExpiry(a: array<Token>)
    modifies a
    ensures SortedByExpiry(a[..])
    ensures multiset(a[..]) == multiset(old(a[..]))
  {
    var i := 0;
    while i < a.Length
      invariant 0 <= i <= a.Length
      invariant SortedByExpiry(a[..i])
      invariant multiset(a[..]) == multiset(old(a[..]))
    {
      SortedButStart(a[..], i);
      var j := i;
      while j > 0 && a[j - 1].expires > a[j].expires
        invariant 0 <= j <= i < a.Length
        invariant SortedBut(a[..], i + 1, j)
        invariant multiset(a[..]) == multiset(old(a[..]))
      {
        SortedButSwap(a[..], i + 1, j);
        ghost var swapped := SwapAdjacent(a[..], j);
        a[j - 1], a[j] := a[j], a[j - 1];
        assert a[..] == swapped;
        j := j - 1;
      }
      SortedButDone(a[..], i + 1, j);
      i := i + 1;
    }
    assert a[..] == a[..a.Length];
  }

  /**
   * The fetcher of either panel: the list the server returned, copied into an
   * array and sorted ascending by expiry.
   */
  method FetchSorted(fetched: seq<Token>) returns (tokens: seq<Token>)
    ensures SortedByExpiry(tokens)
    ensures multiset(tokens) == multiset(fetched)
  {
    var r := new Token[|fetched|](i requires 0 <= i < |fetched| => fetched[i]);
    assert r[..] == fetched;
    SortByExpiry(r);
    tokens := r[..];
  }

  // ---------------------------------------------------------------------------
  // The optimistic filter
  // ---------------------------------------------------------------------------

  /** `tokens.filter((t) => t._id !== id)`. */
  function Without(tokens: seq<Token>, id: string): (kept: seq<Token>)
    ensures |kept| <= |tokens|
    ensures forall t :: t in kept <==> t in tokens && t.id != id
  {
    if tokens == [] then []
    else
      var init := Without(tokens[..|tokens| - 1], id);
      var last := tokens[|tokens| - 1];
      assert forall t :: t in tokens <==> t in tokens[..|tokens| - 1] || t == last by {
        assert tokens == tokens[..|tokens| - 1] + [last];
      }
      if last.id != id then init + [last] else init
  }

  /** The filter keeps order: it distributes over concatenation. */
  lemma {:induction false} WithoutAppend(a: seq<Token>, b: seq<Token>, id: string)
    ensures Without(a + b, id) == Without(a, id) + Without(b, id)
    decreases |b|
  {
    if b == [] {
      assert a + b == a;
    } else {
      assert (a + b)[..|a + b| - 1] == a + b[..|b| - 1];
      assert (a + b)[|a + b| - 1] == b[|b| - 1];
      WithoutAppend(a, b[..|b| - 1], id);
    }
  }

  /** Every token with the revoked id is removed, and every other token keeps its multiplicity. */
  lemma {:induction false} WithoutMultiplicity(tokens: seq<Token>, id: string, t: Token)
    ensures multiset(Without(tokens, id))[t] == if t.id == id then 0 else multiset(tokens)[t]
  {
    if tokens != [] {
      var init := tokens[..|tokens| - 1];
      WithoutMultiplicity(init, id, t);
      assert tokens == init + [tokens[|tokens| - 1]];
    }
  }

  /** A list with no token of that id is left as it is. */
  lemma {:induction false} WithoutAbsent(tokens: seq<Token>, id: string)
    requires forall i :: 0 <= i < |tokens| ==> tokens[i].id != id
    ensures Without(tokens, id) == tokens
  {
    if tokens != [] {
      WithoutAbsent(tokens[..|tokens| - 1], id);
      assert tokens == tokens[..|tokens| - 1] + [tokens[|tokens| - 1]];
    }
  }

  /** Removing tokens from a list sorted by expiry leaves it sorted. */
  lemma {:induction false} WithoutSorted(tokens: seq<Token>, id: string)
    requires SortedByExpiry(tokens)
    ensures SortedByExpiry(Without(tokens, id))
  {
    if tokens != [] {
      var init := tokens[..|tokens| - 1];
      var last := tokens[|tokens| - 1];
      WithoutSorted(init, id);
      var kept := Without(init, id);
      forall i | 0 <= i < |kept| ensures kept[i].expires <= last.expires {
        assert kept[i] in init;
      }
    }
  }

  // ---------------------------------------------------------------------------
  // The session table
  // ---------------------------------------------------------------------------

  /** The action cell of a session row. */
  datatype SessionAction = Current | TerminatePopover(sessionId: string)

  /**
   * A session whose id equals the cookie token is "Current" (and highlighted);
   * every other one gets a popover that terminates it. The cookie may be absent.
   */
  function SessionActions(sessions: seq<Token>, cookieToken: Option<string>): (actions: seq<SessionAction>)
    ensures |actions| == |sessions|
    ensures forall i :: 0 <= i < |sessions| ==>
      (actions[i] == Current <==> cookieToken == Some(sessions[i].id))
    ensures forall i :: 0 <= i < |sessions| && actions[i].TerminatePopover? ==>
      actions[i].sessionId == sessions[i].id
  {
    seq(|sessions|, i requires 0 <= i < |sessions| =>
      if cookieToken == Some(sessions[i].id) then Current else TerminatePopover(sessions[i].id))
  }

  /** Terminating a session from any popover keeps the current session in the list. */
  lemma TerminateKeepsCurrent(sessions: seq<Token>, cookieToken: Option<string>, row: nat, t: Token)
    requires row < |sessions| && SessionActions(sessions, cookieToken)[row].TerminatePopover?
    requires t in sessions && cookieToken == Some(t.id)
    ensures t in Without(sessions, SessionActions(sessions, cookieToken)[row].sessionId)
  {
  }

  // ---------------------------------------------------------------------------
  // The cached list and its revoke / create flows
  // ---------------------------------------------------------------------------

  /** The settled result of a server call: fulfilled, or rejected with an error. */
  datatype CallResult = Fulfilled | Rejected(error: string)

  /** A notification: one built by `parseError` from a rejection, or a fixed one. */
  datatype Toast = ParsedError(error: string) | Notice(title: string, description: string, destructive: bool)

  const CaptchaToast: Toast := Notice("Captcha Error", "Please verify you are not a robot", true)

  /** A request sent to the authentication service. */
  datatype ServerCall = RevokeCall(tokenId: string) | CreateCall(turnstileToken: string, name: string)

  /**
   * Where a revoke stands: `Optimistic` holds the snapshot taken before the
   * filtered list was written and the id being revoked.
   */
  datatype Phase =
    | Idle
    | Optimistic(snapshot: seq<Token>, revoking: string)
    | Reconciling
    | RolledBack

  /** What `createAPIToken` does: return a boolean, or let the rejection escape. */
  datatype CreateOutcome = Returned(created: bool) | Threw(error: string)

  /** The outcome of `createAPIToken(turnstileToken, name)` when `createToken` settles as `result`. */
  function CreateOutcomeOf(turnstileToken: string, result: CallResult): (outcome: CreateOutcome)
    ensures outcome == Returned(true) <==> turnstileToken != "" && result.Fulfilled?
    ensures turnstileToken == "" ==> outcome == Returned(false)
  {
    if turnstileToken == "" then Returned(false)
    else if result.Fulfilled? then Returned(true)
    else Threw(result.error)
  }

  /**
   * The create popover after a click on "Create API Key": it closes only when
   * `onCreate` resolves to true; a false result or a rejection leaves it as it was.
   */
  function PopoverOpenAfter(wasOpen: bool, outcome: CreateOutcome): (open: bool)
    ensures !open <==> !wasOpen || outcome == Returned(true)
  {
    if outcome == Returned(true) then false else wasOpen
  }

  /** An open create popover closes exactly when a captcha token was present and the key was created. */
  lemma PopoverClosesOnlyOnCreation(turnstileToken: string, name: string, result: CallResult)
    ensures !PopoverOpenAfter(true, CreateOutcomeOf(turnstileToken, result)) <==>
      turnstileToken != "" && result.Fulfilled?
  {
  }

  /** The cached token list of one panel (sessions or API keys) and what it has emitted. */
  class TokenPanel {
    /** The cached list, as `mutate(list)` last set it. */
    var cache: seq<Token>
    var phase: Phase
    /**
     * How many revalidations were requested: one per `mutate()`, and one per
     * `mutate(list)` written without the `false` flag.
     */
    var revalidations: nat
    var toasts: seq<Toast>
    var calls: seq<ServerCall>

    /** The cache stays sorted by expiry; an optimistic list is its snapshot without the revoked id. */
    ghost predicate Valid()
      reads this
    {
      SortedByExpiry(cache) &&
      (phase.Optimistic? ==>
        SortedByExpiry(phase.snapshot) && cache == Without(phase.snapshot, phase.revoking))
    }

    /** The panel after its first fetch. */
    constructor (fetched: seq<Token>)
      ensures Valid()
      ensures SortedByExpiry(cache) && multiset(cache) == multiset(fetched)
      ensures phase == Idle && revalidations == 0 && toasts == [] && calls == []
    {
      var sorted := FetchSorted(fetched);
      cache := sorted;
      phase := Idle;
      revalidations := 0;
      toasts := [];
      calls := [];
    }

    /** A revalidation has delivered a fresh list from the server: it is sorted and cached. */
    method Refreshed(fetched: seq<Token>)
      requires Valid() && !phase.Optimistic?
      modifies this
      ensures Valid()
      ensures SortedByExpiry(cache) && multiset(cache) == multiset(fetched)
      ensures phase == Idle
      ensures revalidations == old(revalidations) && toasts == old(toasts) && calls == old(calls)
    {
      var sorted := FetchSorted(fetched);
      cache := sorted;
      phase := Idle;
    }

    /**
     * First half of `revokeSession` / `revokeAPIToken`: snapshot the list, write
     * the filtered list without revalidating, and send the revoke request.
     */
    method BeginRevoke(id: string)
      requires Valid() && !phase.Optimistic?
      modifies this
      ensures Valid()
      ensures cache == Without(old(cache), id)
      ensures phase == Optimistic(old(cache), id)
      ensures calls == old(calls) + [RevokeCall(id)]
      ensures revalidations == old(revalidations) && toasts == old(toasts)
    {
      WithoutSorted(cache, id);
      phase := Optimistic(cache, id);
      cache := Without(cache, id);
      calls := calls + [RevokeCall(id)];
    }

    /**
     * Second half: on success request a revalidation; on failure emit one error
     * toast and restore the snapshot. The restoring `mutate(oldTokens)` omits the
     * `false` flag, so it requests a revalidation as well.
     */
    method SettleRevoke(result: CallResult)
      requires Valid() && phase.Optimistic?
      modifies this
      ensures Valid()
      ensures calls == old(calls)
      ensures result.Fulfilled? ==>
        cache == old(cache) && phase == Reconciling &&
        revalidations == old(revalidations) + 1 && toasts == old(toasts)
      ensures result.Rejected? ==>
        cache == old(phase.snapshot) && phase == RolledBack &&
        revalidations == old(revalidations) + 1 && toasts == old(toasts) + [ParsedError(result.error)]
    {
      if result.Fulfilled? {
        revalidations := revalidations + 1;
        phase := Reconciling;
      } else {
        toasts := toasts + [ParsedError(result.error)];
        cache := phase.snapshot;
        revalidations := revalidations + 1;
        phase := RolledBack;
      }
    }

    /** One whole revoke of `id`, whose server call settles as `result`. */
    method Revoke(id: string, result: CallResult)
      requires Valid() && !phase.Optimistic?
      modifies this
      ensures Valid()
      ensures calls == old(calls) + [RevokeCall(id)]
      ensures result.Fulfilled? ==>
        cache == Without(old(cache), id) && phase == Reconciling &&
        revalidations == old(revalidations) + 1 && toasts == old(toasts)
      ensures result.Rejected? ==>
        cache == old(cache) && phase == RolledBack &&
        revalidations == old(revalidations) + 1 && toasts == old(toasts) + [ParsedError(result.error)]
    {
      BeginRevoke(id);
      SettleRevoke(result);
    }

    /**
     * `createAPIToken(turnstileToken, name)`: without a captcha token it emits the
     * captcha toast and returns false without any request; otherwise it sends the
     * create request and, if that succeeds, requests a revalidation and returns
     * true. A rejected request escapes: no revalidation and no toast.
     */
    method CreateApiToken(turnstileToken: string, name: string, result: CallResult) returns (outcome: CreateOutcome)
      requires Valid()
      modifies this
      ensures Valid()
      ensures outcome == CreateOutcomeOf(turnstileToken, result)
      ensures cache == old(cache) && phase == old(phase)
      ensures turnstileToken == "" ==>
        toasts == old(toasts) + [CaptchaToast] && calls == old(calls) && revalidations == old(revalidations)
      ensures turnstileToken != "" ==>
        toasts == old(toasts) && calls == old(calls) + [CreateCall(turnstileToken, name)] &&
        revalidations == old(revalidations) + (if result.Fulfilled? then 1 else 0)
    {
      if turnstileToken == "" {
        toasts := toasts + [CaptchaToast];
        return Returned(false);
      }
      calls := calls + [CreateCall(turnstileToken, name)];
      if result.Rejected? {
        return Threw(result.error);
      }
      revalidations := revalidations + 1;
      outcome := Returned(true);
    }
  }

  /**
   * Three cached sessions; terminating the middle one is first refused by the
   * server, which restores the list and shows one error, and then accepted.
   */
  method RevokeWalkthrough(a: Token, b: Token, c: Token, error: string)
    requires a.id != b.id && c.id != b.id
  {
    var panel := new TokenPanel([a, b, c]);
    ghost var before := panel.cache;
    assert a in before && b in before && c in before;
    panel.Revoke(b.id, Rejected(error));
    assert panel.cache == before && panel.toasts == [ParsedError(error)];
    panel.Revoke(b.id, Fulfilled);
    assert b !in panel.cache && a in panel.cache && c in panel.cache;
    assert panel.revalidations == 2 && panel.calls == [RevokeCall(b.id), RevokeCall(b.id)];
  }
}
