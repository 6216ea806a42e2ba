/** The device probe used to pick the lite site: `detectLowPerformance`
    and the non-WebGL part of `getDeviceCapabilities`. The navigator's
    fields are parameters; the WebGL probes are passed in as booleans. */
module Device {
  import opened Options
  import opened Text

  /** What the probe reads from `navigator`; a missing field is None. */
  datatype Navigator = Navigator(
    hardwareConcurrency: Option<nat>,
    deviceMemory: Option<real>,
    userAgent: string)

  /** The alternatives of the mobile user-agent pattern, matched without
      regard to case. */
  const MobileTokens: seq<string> :=
    ["Android", "webOS", "iPhone", "iPad", "iPod", "BlackBerry", "IEMobile", "Opera Mini"]

  const FewCores: nat := 2
  const LowMemory: real := 4.0

  /** `navigator.hardwareConcurrency || 1`. */
  function Cores(nav: Navigator): (c: nat)
    ensures c >= 1
    ensures nav.hardwareConcurrency.Some? && nav.hardwareConcurrency.value != 0 ==> c == nav.hardwareConcurrency.value
  {
    if nav.hardwareConcurrency.Some? && nav.hardwareConcurrency.value != 0 then nav.hardwareConcurrency.value else 1
  }

  /** `memory && memory < 4`: a present, non-zero memory below 4. */
  predicate LowMemoryReported(nav: Navigator) {
    nav.deviceMemory.Some? && nav.deviceMemory.value != 0.0 && nav.deviceMemory.value < LowMemory
  }

  /** Some of the first `n` tokens occurs in the lower-cased agent. */
  function MatchesSomeToken(ua: string, tokens: seq<string>, n: nat): (r: bool)
    requires n <= |tokens|
    ensures r <==> exists k :: 0 <= k < n && Contains(ToLower(ua), ToLower(tokens[k]))
    decreases n
  {
    if n == 0 then false
    else MatchesSomeToken(ua, tokens, n - 1) || Contains(ToLower(ua), ToLower(tokens[n - 1]))
  }

  /** The case-insensitive mobile pattern: some token occurs in the
      lower-cased agent. */
  predicate IsMobile(ua: string) {
    exists k :: 0 <= k < |MobileTokens| && Contains(ToLower(ua), ToLower(MobileTokens[k]))
  }

  /** The pattern's `test`, scanning the tokens one after the other. */
  function MobileTest(ua: string): (r: bool)
    ensures r <==> IsMobile(ua)
  {
    MatchesSomeToken(ua, MobileTokens, |MobileTokens|)
  }

  /** `detectLowPerformance`: few cores first, then low memory, then the
      user agent. */
  function DetectLowPerformance(nav: Navigator): (r: bool)
    ensures Cores(nav) <= FewCores ==> r
    ensures LowMemoryReported(nav) ==> r
    ensures Cores(nav) > FewCores && !LowMemoryReported(nav) ==> (r <==> IsMobile(nav.userAgent))
  {
    if Cores(nav) <= FewCores then true
    else if LowMemoryReported(nav) then true
    else MobileTest(nav.userAgent)
  }

  datatype Memory = Known(gigabytes: real) | Unknown

  datatype Capabilities = Capabilities(webgl: bool, webgl2: bool, cores: nat, memory: Memory, isLowPerf: bool)

  /** `getDeviceCapabilities`, with the two WebGL probes given. */
  function GetDeviceCapabilities(nav: Navigator, webgl: bool, webgl2: bool): (c: Capabilities)
    ensures c.cores >= 1 && c.cores == Cores(nav)
    ensures c.memory == Unknown <==> nav.deviceMemory.None? || nav.deviceMemory.value == 0.0
    ensures c.memory.Known? ==> c.memory.gigabytes == nav.deviceMemory.value
    ensures c.isLowPerf == DetectLowPerformance(nav)
    ensures c.webgl == webgl && c.webgl2 == webgl2
  {
    var memory := if nav.deviceMemory.Some? && nav.deviceMemory.value != 0.0 then Known(nav.deviceMemory.value) else Unknown;
    Capabilities(webgl, webgl2, Cores(nav), memory, DetectLowPerformance(nav))
  }

  /** A missing core count reads as one core and so means low
      performance; a missing or zero memory value never decides the
      result. */
  lemma MissingFieldsDefaults(nav: Navigator)
    ensures nav.hardwareConcurrency.None? ==> Cores(nav) == 1 && DetectLowPerformance(nav)
    ensures nav.deviceMemory.None? || nav.deviceMemory.value == 0.0 ==>
              DetectLowPerformance(nav) == (Cores(nav) <= FewCores || IsMobile(nav.userAgent))
  {
  }

  /** Lower-casing distributes over concatenation. */
  lemma ToLowerAppend(a: string, b: string)
    ensures ToLower(a + b) == ToLower(a) + ToLower(b)
  {
    var l, r := ToLower(a + b), ToLower(a) + ToLower(b);
    assert forall i :: 0 <= i < |l| ==> l[i] == r[i] by {
      forall i | 0 <= i < |l|
        ensures l[i] == r[i]
      {
        if i < |a| { assert (a + b)[i] == a[i]; } else { assert (a + b)[i] == b[i - |a|]; }
      }
    }
  }

  /** A token found in the lower-cased agent makes the agent mobile. */
  lemma TokenMatchIsMobile(ua: string, k: nat, i: nat)
    requires k < |MobileTokens| && MatchesAt(ToLower(ua), ToLower(MobileTokens[k]), i)
    ensures IsMobile(ua)
  {
    assert Contains(ToLower(ua), ToLower(MobileTokens[k]));
  }

  /** A mobile agent has a token and a position where it matches. */
  lemma MobileWitness(ua: string) returns (k: nat, i: nat)
    requires IsMobile(ua)
    ensures k < |MobileTokens| && MatchesAt(ToLower(ua), ToLower(MobileTokens[k]), i)
  {
    k :| 0 <= k < |MobileTokens| && Contains(ToLower(ua), ToLower(MobileTokens[k]));
    i :| MatchesAt(ToLower(ua), ToLower(MobileTokens[k]), i);
  }

  /** A match inside the middle part of a string is a match in the whole
      string, shifted by the length of the first part. */
  lemma MatchInMiddle(a: string, m: string, b: string, t: string, i: nat)
    requires MatchesAt(m, t, i)
    ensures MatchesAt(a + m + b, t, |a| + i)
  {
    var w := a + m + b;
    assert w[|a| + i..|a| + i + |t|] == m[i..i + |t|];
  }

  /** A mobile user agent stays mobile with text added on either side:
      the test looks for a token anywhere in the string. */
  lemma MobileSurvivesContext(ua: string, before: string, after: string)
    requires IsMobile(ua)
    ensures IsMobile(before + ua + after)
  {
    var k, i := MobileWitness(ua);
    ToLowerAppend(before, ua);
    ToLowerAppend(before + ua, after);
    MatchInMiddle(ToLower(before), ToLower(ua), ToLower(after), ToLower(MobileTokens[k]), i);
    TokenMatchIsMobile(before + ua + after, k, |ToLower(before)| + i);
  }

  /** The third token, lower-cased, is "iphone". */
  lemma IPhoneToken()
    ensures |MobileTokens| > 2 && ToLower(MobileTokens[2]) == "iphone"
  {
    var t := ToLower(MobileTokens[2]);
    assert MobileTokens[2] == "iPhone";
    assert forall i :: 0 <= i < 6 ==> t[i] == LowerChar("iPhone"[i]);
  }

  /** Any agent that mentions an iPhone, in any letter case, is mobile. */
  lemma IPhoneIsMobile(before: string, model: string, after: string)
    requires ToLower(model) == "iphone"
    ensures IsMobile(before + model + after)
  {
    IPhoneToken();
    assert MatchesAt(ToLower(model), ToLower(MobileTokens[2]), 0);
    TokenMatchIsMobile(model, 2, 0);
    MobileSurvivesContext(model, before, after);
  }
}
