/** The location list a PropertyPlaceholderConfigurer is given by
    setConfigurationName: the property resources found for the configuration,
    in reverse order, each reduced to the part of its URL after the last '/'.
    Finding the resources is an input here. */
module Placeholder {

  /** Java's String.lastIndexOf(c): the last position holding c, or -1. */
  function LastIndexOf(s: string, c: char): (i: int)
    ensures -1 <= i < |s|
    ensures i >= 0 ==> s[i] == c
    ensures forall j :: i < j < |s| ==> s[j] != c
  {
    if |s| == 0 then -1
    else if s[|s| - 1] == c then |s| - 1
    else LastIndexOf(s[..|s| - 1], c)
  }

  /** The class-path location of one resource URL: url.substring(url.lastIndexOf("/") + 1). */
  function ResourceLocation(url: string): (r: string)
    ensures |r| <= |url| && r == url[|url| - |r|..]
    ensures '/' !in r
    ensures |r| < |url| ==> url[|url| - |r| - 1] == '/'
    ensures '/' !in url ==> r == url
  {
    url[LastIndexOf(url, '/') + 1..]
  }

  /** The three properties of ResourceLocation pin it down: the only suffix of the
      URL that has no '/' and is preceded by '/' (or is the whole URL) is it. */
  lemma ResourceLocationUnique(url: string, t: string)
    requires |t| <= |url| && t == url[|url| - |t|..]
    requires '/' !in t
    requires |t| < |url| ==> url[|url| - |t| - 1] == '/'
    ensures t == ResourceLocation(url)
  {
    var n := |url|;
    var i := LastIndexOf(url, '/');
    assert forall k :: n - |t| <= k < n ==> url[k] == t[k - (n - |t|)];
    // the last '/' lies before t, since t holds none ...
    assert i < n - |t| by {
      if i >= 0 {
        assert url[i] == '/';
      }
    }
    // ... and not further before it, since t is preceded by one
    assert i >= n - |t| - 1 by {
      if |t| < n {
        assert url[n - |t| - 1] == '/';
      }
    }
    assert ResourceLocation(url) == url[n - |t|..];
  }

  /** The loop of setConfigurationName: walk the found URLs from last to first. */
  method ConfigurationLocations(urls: seq<string>) returns (locations: seq<string>)
    ensures |locations| == |urls|
    ensures forall k :: 0 <= k < |urls| ==> locations[k] == ResourceLocation(urls[|urls| - 1 - k])
    ensures forall k :: 0 <= k < |locations| ==> '/' !in locations[k]
  {
    locations := [];
    var i := |urls| - 1;
    while i >= 0
      invariant -1 <= i < |urls|
      invariant |locations| == |urls| - 1 - i
      invariant forall k :: 0 <= k < |locations| ==> locations[k] == ResourceLocation(urls[|urls| - 1 - k])
    {
      locations := locations + [ResourceLocation(urls[i])];
      i := i - 1;
    }
  }

  /** The reference order: the found URLs reversed. */
  function Reverse(s: seq<string>): (r: seq<string>)
    ensures |r| == |s|
  {
    if s == [] then [] else Reverse(s[1..]) + [s[0]]
  }

  lemma {:induction false} ReverseIndex(s: seq<string>, k: int)
    requires 0 <= k < |s|
    ensures Reverse(s)[k] == s[|s| - 1 - k]
  {
    if k < |s| - 1 {
      ReverseIndex(s[1..], k);
    }
  }

  /** The locations are the reversed URL list, location by location: the last URL
      found comes first. */
  method LocationsFollowReversedUrls(urls: seq<string>) returns (locations: seq<string>)
    ensures |locations| == |Reverse(urls)|
    ensures forall k :: 0 <= k < |locations| ==> locations[k] == ResourceLocation(Reverse(urls)[k])
  {
    locations := ConfigurationLocations(urls);
    forall k | 0 <= k < |locations|
      ensures locations[k] == ResourceLocation(Reverse(urls)[k])
    {
      ReverseIndex(urls, k);
    }
  }
}
