/**
 * The data source of each station: the loop that fills the `url` column of
 * the station table with `base_url + station + '/' + time`.
 */
module StationFeeds {
  import opened Wrappers

  const BaseUrl: string := "http://meteo145.uibk.ac.at/"

  /** `time = str(7)`: the look-back window the feed is asked for. */
  const Lookback: string := "7"

  /** The index of the station table. */
  const Stations: seq<string> := ["innsbruck", "sattelberg", "obergurgl", "ellboegen"]

  /**
   * The URL of one station's feed. For a station name without '/', the
   * station and the window can be read back from it.
   */
  function StationUrl(base: string, station: string, time: string): (url: string)
    ensures |url| == |base| + |station| + 1 + |time|
    ensures '/' !in station ==> ParseUrl(base, url) == Some((station, time))
  {
    ParseConcat(base, station, time);
    base + station + "/" + time
  }

  /** The position of the first '/' in `s`, if any. */
  function FirstSlash(s: string): (k: Option<nat>)
    ensures k.Some? ==> k.value < |s| && s[k.value] == '/' && '/' !in s[..k.value]
    ensures k.None? ==> '/' !in s
  {
    if s == [] then None
    else if s[0] == '/' then Some(0)
    else
      match FirstSlash(s[1..])
      case None => None
      case Some(j) => Some(j + 1)
  }

  /** Reads the station and the look-back window back out of a URL under `base`. */
  function ParseUrl(base: string, url: string): Option<(string, string)>
  {
    if |url| < |base| || url[..|base|] != base then None
    else
      var rest := url[|base|..];
      match FirstSlash(rest)
      case None => None
      case Some(k) => Some((rest[..k], rest[k + 1..]))
  }

  /** The first '/' after the station name is the one the URL puts there. */
  lemma {:induction false} FirstSlashAfter(station: string, tail: string)
    requires '/' !in station
    ensures FirstSlash(station + "/" + tail) == Some(|station|)
  {
    if station != [] {
      assert (station + "/" + tail)[1..] == station[1..] + "/" + tail;
      FirstSlashAfter(station[1..], tail);
    }
  }

  /** base + station + '/' + time parses back into the station and the window. */
  lemma ParseConcat(base: string, station: string, time: string)
    ensures '/' !in station ==> ParseUrl(base, base + station + "/" + time) == Some((station, time))
  {
    if '/' in station {
      return;
    }
    var url := base + station + "/" + time;
    assert url[..|base|] == base;
    var rest := url[|base|..];
    assert rest == station + "/" + time;
    FirstSlashAfter(station, time);
    assert rest[..|station|] == station;
    assert rest[|station| + 1..] == time;
  }

  /** Distinct stations get distinct URLs, so no two stations read the same feed. */
  lemma UrlInjective(base: string, s1: string, s2: string, time: string)
    requires s1 != s2
    ensures StationUrl(base, s1, time) != StationUrl(base, s2, time)
  {
    if |s1| == |s2| {
      // Equal lengths: the station names sit at the same place in both URLs.
      assert StationUrl(base, s1, time)[|base|..|base| + |s1|] == s1;
      assert StationUrl(base, s2, time)[|base|..|base| + |s2|] == s2;
    }
  }

  /** The configured stations each have a feed of their own. */
  lemma ConfiguredUrlsDistinct()
    ensures forall i, j :: 0 <= i < j < |Stations| ==>
              StationUrl(BaseUrl, Stations[i], Lookback) != StationUrl(BaseUrl, Stations[j], Lookback)
  {
  }

  /**
   * The `url` column: first set to '' everywhere, then, station by station,
   * every row whose index equals that station gets its URL.
   */
  method FillUrls(names: seq<string>, base: string, time: string) returns (urls: seq<string>)
    ensures |urls| == |names|
    ensures forall i :: 0 <= i < |names| ==> urls[i] == StationUrl(base, names[i], time)
  {
    var column := new string[|names|](_ => "");
    ghost var filled: set<string> := {};
    for k := 0 to |names|
      invariant forall m :: 0 <= m < k ==> names[m] in filled
      invariant forall j :: 0 <= j < |names| ==>
                  column[j] == if names[j] in filled then StationUrl(base, names[j], time) else ""
    {
      var url := StationUrl(base, names[k], time);
      for i := 0 to |names|
        invariant forall j :: 0 <= j < |names| ==>
                    column[j] == if names[j] in filled || (j < i && names[j] == names[k])
                                 then StationUrl(base, names[j], time) else ""
      {
        if names[i] == names[k] {
          column[i] := url;
        }
      }
      filled := filled + {names[k]};
    }
    urls := column[..];
  }
}
