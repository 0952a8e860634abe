/**
 * The cache hit-rate logger: the two metric paths under which a hit rate
 * is sent, and the order of the two sends.
 */
module StatisticLogging {
  import opened Wrappers

  /** The build environment fields the metric paths use. */
  datatype BuildEnvironment = BuildEnvironment(
    user: string,
    targetName: string,
    platformName: string,
    swiftVersion: string,
    configuration: string,
    architectures: string)

  const VersionComponent: string := "v1"

  /**
   * Swift's `split(separator:)`: the maximal runs of characters other than
   * `sep`, in order, empty runs omitted.
   */
  function Split(s: string, sep: char): (parts: seq<string>)
    ensures forall i :: 0 <= i < |parts| ==> |parts[i]| > 0 && sep !in parts[i]
    decreases |s|
  {
    SplitFrom(s, sep, "")
  }

  /** `Split` with `current` holding the characters of the run read so far. */
  function SplitFrom(s: string, sep: char, current: string): (parts: seq<string>)
    requires sep !in current
    ensures forall i :: 0 <= i < |parts| ==> |parts[i]| > 0 && sep !in parts[i]
    decreases |s|
  {
    if |s| == 0 then
      if |current| == 0 then [] else [current]
    else if s[0] == sep then
      (if |current| == 0 then [] else [current]) + SplitFrom(s[1..], sep, "")
    else
      SplitFrom(s[1..], sep, current + [s[0]])
  }

  /** `joined(separator:)`. */
  function Join(parts: seq<string>, sep: string): string {
    if |parts| == 0 then ""
    else if |parts| == 1 then parts[0]
    else parts[0] + sep + Join(parts[1..], sep)
  }

  lemma {:induction false} JoinHasNoChar(parts: seq<string>, sep: string, c: char)
    requires forall i :: 0 <= i < |parts| ==> c !in parts[i]
    requires c !in sep
    ensures c !in Join(parts, sep)
  {
    if |parts| > 1 {
      JoinHasNoChar(parts[1..], sep, c);
    }
  }

  /**
   * Splitting undoes joining: pieces that are non-empty and free of the
   * separator come back from `Split` after `Join`.
   */
  lemma {:induction false} SplitJoin(parts: seq<string>, sep: char)
    requires forall i :: 0 <= i < |parts| ==> |parts[i]| > 0 && sep !in parts[i]
    ensures Split(Join(parts, [sep]), sep) == parts
  {
    SplitJoinFrom(parts, sep, "");
    if |parts| > 0 {
      assert "" + parts[0] == parts[0];
      assert [parts[0]] + parts[1..] == parts;
    }
  }

  lemma {:induction false} SplitJoinFrom(parts: seq<string>, sep: char, current: string)
    requires forall i :: 0 <= i < |parts| ==> |parts[i]| > 0 && sep !in parts[i]
    requires sep !in current
    ensures |parts| == 0 ==> SplitFrom(Join(parts, [sep]), sep, current) == (if |current| == 0 then [] else [current])
    ensures |parts| > 0 ==> SplitFrom(Join(parts, [sep]), sep, current) == [current + parts[0]] + parts[1..]
    decreases |parts|, |Join(parts, [sep])|
  {
    if |parts| == 1 {
      RunOnly(parts[0], sep, current);
    } else if |parts| > 1 {
      var tail := parts[1..];
      SplitJoinFrom(tail, sep, "");
      RunThenSeparator(parts[0], sep, current, Join(tail, [sep]));
      assert Join(parts, [sep]) == parts[0] + ([sep] + Join(tail, [sep]));
      assert "" + tail[0] == tail[0];
      assert [tail[0]] + tail[1..] == tail;
    }
  }

  /** Reading a run without separators just extends the current run. */
  lemma {:induction false} RunOnly(run: string, sep: char, current: string)
    requires sep !in run && sep !in current && |current + run| > 0
    ensures SplitFrom(run, sep, current) == [current + run]
    decreases |run|
  {
    if |run| > 0 {
      assert run[0] in run;
      assert sep !in current + [run[0]];
      assert current + [run[0]] + run[1..] == current + run;
      RunOnly(run[1..], sep, current + [run[0]]);
    } else {
      assert current + run == current;
    }
  }

  lemma {:induction false} RunThenSeparator(run: string, sep: char, current: string, rest: string)
    requires sep !in run && sep !in current && |current + run| > 0
    ensures SplitFrom(run + ([sep] + rest), sep, current) == [current + run] + SplitFrom(rest, sep, "")
    decreases |run|
  {
    if |run| == 0 {
      assert run + ([sep] + rest) == [sep] + rest;
      assert ([sep] + rest)[1..] == rest;
      assert current + run == current;
    } else {
      assert run[0] in run;
      assert sep !in current + [run[0]];
      assert (run + ([sep] + rest))[0] == run[0];
      assert (run + ([sep] + rest))[1..] == run[1..] + ([sep] + rest);
      assert current + [run[0]] + run[1..] == current + run;
      RunThenSeparator(run[1..], sep, current + [run[0]], rest);
    }
  }

  /** The short metric path of a build. */
  function ShortMetricKey(rootKey: seq<string>, env: BuildEnvironment): (k: seq<string>)
    ensures |k| == |rootKey| + 8 && k[..|rootKey|] == rootKey
  {
    rootKey + [VersionComponent, "userName", env.user, "targetName", env.targetName, "remotecache", "short", "hitrate"]
  }

  /** The architectures as one path component: split on spaces, joined with dashes. */
  function ArchitecturesComponent(architectures: string): (c: string)
    ensures ' ' !in c
  {
    JoinHasNoChar(Split(architectures, ' '), "-", ' ');
    Join(Split(architectures, ' '), "-")
  }

  /** The full metric path of a build. */
  function FullMetricKey(rootKey: seq<string>, env: BuildEnvironment): (k: seq<string>)
    ensures |k| == |rootKey| + 15 + |Split(env.swiftVersion, '.')| && k[..|rootKey|] == rootKey
  {
    rootKey
      + [VersionComponent, "userName", env.user, "targetName", env.targetName, "remotecache", "full", "hitrate",
         "platformName", env.platformName, "swiftVersion"]
      + Split(env.swiftVersion, '.')
      + ["configuration", env.configuration, "architectures", ArchitecturesComponent(env.architectures)]
  }

  /**
   * The two paths agree on their first components except the metric type,
   * "short" in one and "full" in the other; the full path then names the
   * platform, the Swift version pieces between "swiftVersion" and
   * "configuration", and ends with the architectures component.
   */
  lemma ShortAndFullKeys(rootKey: seq<string>, env: BuildEnvironment)
    ensures var s := ShortMetricKey(rootKey, env);
      var f := FullMetricKey(rootKey, env);
      var n := |rootKey|;
      var v := Split(env.swiftVersion, '.');
      && s[n + 6] == "short" && f[n + 6] == "full"
      && f[..n + 8] == s[n + 6 := "full"]
      && f[n + 10] == "swiftVersion"
      && f[n + 11..n + 11 + |v|] == v
      && f[n + 11 + |v|] == "configuration"
      && f[|f| - 1] == ArchitecturesComponent(env.architectures)
      && ' ' !in f[|f| - 1]
  {
  }

  datatype Metric = Metric(path: seq<string>, value: real, timestamp: int)

  datatype SendError = SendFailed(path: seq<string>)

  /**
   * The metrics client. `outcomes` holds the answers the network will give
   * to the next sends (an exhausted list accepts); `sent` records what was
   * delivered.
   */
  class GraphiteClient {
    var outcomes: seq<bool>
    var sent: seq<Metric>

    constructor(outcomes: seq<bool>)
      ensures this.outcomes == outcomes && sent == []
    {
      this.outcomes := outcomes;
      sent := [];
    }

    /** Whether the next send is delivered. */
    function Accepts(): bool
      reads this
    {
      |outcomes| == 0 || outcomes[0]
    }

    method Send(path: seq<string>, value: real, timestamp: int) returns (r: Result<(), SendError>)
      modifies this
      ensures outcomes == if |old(outcomes)| == 0 then [] else old(outcomes)[1..]
      ensures old(Accepts()) ==> r == Success(()) && sent == old(sent) + [Metric(path, value, timestamp)]
      ensures !old(Accepts()) ==> r == Failure(SendFailed(path)) && sent == old(sent)
    {
      var accepted := Accepts();
      if |outcomes| > 0 {
        outcomes := outcomes[1..];
      }
      if accepted {
        sent := sent + [Metric(path, value, timestamp)];
        return Success(());
      }
      return Failure(SendFailed(path));
    }
  }

  /**
   * `logStatisticCache`: the hit rate under the short path, then under the
   * full path, with one value and one timestamp; a failed send ends the
   * call. The hit rate and the clock reading are parameters.
   */
  method LogStatisticCache(client: GraphiteClient, rootKey: seq<string>, env: BuildEnvironment, hitRate: real, timestamp: int)
    returns (r: Result<(), SendError>)
    modifies client
    ensures r.Success? <==> old(client.Accepts()) && (|old(client.outcomes)| <= 1 || old(client.outcomes)[1])
    ensures var n := if old(client.Accepts()) then 2 else 1;
      client.outcomes == if |old(client.outcomes)| <= n then [] else old(client.outcomes)[n..]
    ensures r.Success? ==>
      client.sent == old(client.sent) + [Metric(ShortMetricKey(rootKey, env), hitRate, timestamp), Metric(FullMetricKey(rootKey, env), hitRate, timestamp)]
    ensures !old(client.Accepts()) ==> r == Failure(SendFailed(ShortMetricKey(rootKey, env))) && client.sent == old(client.sent)
    ensures r.Failure? && old(client.Accepts()) ==>
      r == Failure(SendFailed(FullMetricKey(rootKey, env)))
      && client.sent == old(client.sent) + [Metric(ShortMetricKey(rootKey, env), hitRate, timestamp)]
  {
    var shortKey := ShortMetricKey(rootKey, env);
    r := client.Send(shortKey, hitRate, timestamp);
    if r.Failure? {
      return;
    }
    var fullKey := FullMetricKey(rootKey, env);
    r := client.Send(fullKey, hitRate, timestamp);
  }
}
