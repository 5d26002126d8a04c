/**
 * `HealthController`: how the `detailed`, `ready` and `live` endpoints fold the individual
 * checks into one status. Each check itself (a database query, a Redis ping, disk and memory
 * figures) is an input here.
 */
module HealthController {
  import opened Wrappers
  import opened Json

  /** The hash one check returns: its name, its status ('ok', 'warning', 'error'), and the rest. */
  datatype Check = Check(name: string, status: string, extra: map<string, Json>)

  const StatusOkText := "ok"

  function CheckJson(c: Check): Json {
    Obj(c.extra + map["name" := Str(c.name), "status" := Str(c.status)])
  }

  /** The checks as JSON, one object per check, in order. */
  function ChecksJson(checks: seq<Check>): (j: seq<Json>)
    ensures |j| == |checks|
    ensures forall i :: 0 <= i < |checks| ==> j[i] == CheckJson(checks[i])
  {
    if checks == [] then [] else [CheckJson(checks[0])] + ChecksJson(checks[1..])
  }

  /** `checks.all? { |check| check[:status] == 'ok' }`. */
  function AllOk(checks: seq<Check>): (ok: bool)
    ensures ok <==> forall i :: 0 <= i < |checks| ==> checks[i].status == StatusOkText
  {
    if checks == [] then true else checks[0].status == StatusOkText && AllOk(checks[1..])
  }

  /** `checks.select { |check| check[:status] != 'ok' }`: the failing checks, in order. */
  function Failing(checks: seq<Check>): (failing: seq<Check>)
    ensures |failing| <= |checks|
    ensures forall i :: 0 <= i < |failing| ==> failing[i].status != StatusOkText
    ensures forall c :: c in failing <==> c in checks && c.status != StatusOkText
  {
    if checks == [] then []
    else
      assert forall c :: c in checks <==> c == checks[0] || c in checks[1..] by {
        assert checks == [checks[0]] + checks[1..];
      }
      (if checks[0].status != StatusOkText then [checks[0]] else []) + Failing(checks[1..])
  }

  /** Just the value, for a check that may be skipped. */
  function Ran(x: Option<Check>): seq<Check> {
    if x.Some? then [x.value] else []
  }

  /** `[...].compact`: the checks that were not skipped (nil), in order. */
  function Compact(xs: seq<Option<Check>>): (checks: seq<Check>)
    ensures |checks| <= |xs|
    ensures forall c :: c in checks <==> Some(c) in xs
  {
    if xs == [] then []
    else
      assert xs == [xs[0]] + xs[1..];
      Ran(xs[0]) + Compact(xs[1..])
  }

  /** `compact` works element by element, so it keeps the order: it commutes with concatenation. */
  lemma {:induction false} CompactAppend(xs: seq<Option<Check>>, ys: seq<Option<Check>>)
    ensures Compact(xs + ys) == Compact(xs) + Compact(ys)
  {
    if xs == [] {
      assert xs + ys == ys;
    } else {
      assert (xs + ys)[1..] == xs[1..] + ys;
      CompactAppend(xs[1..], ys);
    }
  }

  lemma CompactFour(a: Option<Check>, b: Option<Check>, c: Option<Check>, d: Option<Check>)
    ensures Compact([a, b, c, d]) == Ran(a) + Ran(b) + Ran(c) + Ran(d)
  {
    CompactOne(a);
    CompactOne(b);
    CompactOne(c);
    CompactOne(d);
    CompactAppend([a], [b]);
    assert [a] + [b] == [a, b];
    CompactAppend([a, b], [c]);
    assert [a, b] + [c] == [a, b, c];
    CompactAppend([a, b, c], [d]);
    assert [a, b, c] + [d] == [a, b, c, d];
  }

  lemma CompactOne(x: Option<Check>)
    ensures Compact([x]) == Ran(x)
  {
    assert [x][1..] == [];
  }

  lemma CompactCons(x: Option<Check>, xs: seq<Option<Check>>)
    ensures Compact([x] + xs) == Ran(x) + Compact(xs)
  {
    assert ([x] + xs)[1..] == xs;
  }

  /**
   * `perform_health_checks`: database, redis, disk space and memory in that order, without
   * the skipped ones (redis when no client is loaded, memory when /proc/meminfo gives no figures).
   */
  function PerformHealthChecks(database: Check, redis: Option<Check>, disk: Check, memory: Option<Check>): (checks: seq<Check>)
    ensures checks == [database] + Ran(redis) + [disk] + Ran(memory)
  {
    CompactFour(Some(database), redis, Some(disk), memory);
    Compact([Some(database), redis, Some(disk), memory])
  }

  /** `perform_readiness_checks`: database and redis only. */
  function PerformReadinessChecks(database: Check, redis: Option<Check>): (checks: seq<Check>)
    ensures checks == [database] + Ran(redis)
  {
    CompactCons(redis, []);
    CompactCons(Some(database), [redis]);
    Compact([Some(database), redis])
  }

  /** The version reported: the configured one, or '1.0.0' when none is configured. */
  function ReportedVersion(version: Option<string>): (v: string)
    ensures version.Some? ==> v == version.value
    ensures version.None? ==> v == "1.0.0"
  {
    if version.Some? then version.value else "1.0.0"
  }

  /** `show`: always 'ok' with 200, whatever the state of the dependencies. */
  function Show(timestamp: string, version: Option<string>, environment: string): (resp: Response)
    ensures resp.status == StatusOk
    ensures resp.body.Obj? && "status" in resp.body.fields && "version" in resp.body.fields
    ensures resp.body.fields["status"] == Str("ok")
    ensures resp.body.fields["version"] == Str(ReportedVersion(version))
  {
    Response(StatusOk, Obj(map[
      "status" := Str("ok"),
      "timestamp" := Str(timestamp),
      "version" := Str(ReportedVersion(version)),
      "environment" := Str(environment)]))
  }

  /**
   * `detailed`: the overall status is 'ok' exactly when every check's status is 'ok', and
   * 'error' otherwise; the HTTP status is 200 exactly when the overall status is 'ok', 503
   * otherwise; the body lists every check.
   */
  function Detailed(checks: seq<Check>, timestamp: string, version: Option<string>, environment: string): (resp: Response)
    ensures resp.body.Obj? && "status" in resp.body.fields && "checks" in resp.body.fields
    ensures resp.body.fields["status"] == Str("ok") <==> forall i :: 0 <= i < |checks| ==> checks[i].status == StatusOkText
    ensures resp.body.fields["status"] == Str("ok") || resp.body.fields["status"] == Str("error")
    ensures resp.status == StatusOk <==> resp.body.fields["status"] == Str("ok")
    ensures resp.status != StatusOk ==> resp.status == StatusServiceUnavailable
    ensures resp.body.fields["checks"] == Arr(ChecksJson(checks))
  {
    var status := if AllOk(checks) then "ok" else "error";
    var httpStatus := if status == "ok" then StatusOk else StatusServiceUnavailable;
    Response(httpStatus, Obj(map[
      "status" := Str(status),
      "timestamp" := Str(timestamp),
      "version" := Str(ReportedVersion(version)),
      "environment" := Str(environment),
      "checks" := Arr(ChecksJson(checks))]))
  }

  /**
   * `ready`: 200 'ready' exactly when every check is 'ok'; otherwise 503 'not_ready', listing
   * exactly the failing checks in their original order (at least one).
   */
  function Ready(checks: seq<Check>): (resp: Response)
    ensures resp.status == StatusOk <==> AllOk(checks)
    ensures resp.status == StatusOk ==> resp.body == Obj(map["status" := Str("ready")])
    ensures !AllOk(checks) ==>
      && resp.status == StatusServiceUnavailable
      && resp.body.Obj? && "status" in resp.body.fields && "checks" in resp.body.fields
      && resp.body.fields["status"] == Str("not_ready")
      && resp.body.fields["checks"] == Arr(ChecksJson(Failing(checks)))
      && Failing(checks) != []
  {
    FailingEmptyIff(checks);
    if AllOk(checks) then Response(StatusOk, Obj(map["status" := Str("ready")]))
    else Response(StatusServiceUnavailable, Obj(map["status" := Str("not_ready"), "checks" := Arr(ChecksJson(Failing(checks)))]))
  }

  /** `live`: always alive. */
  function Live(timestamp: string): (resp: Response)
    ensures resp.status == StatusOk
    ensures resp.body.Obj? && "status" in resp.body.fields && "timestamp" in resp.body.fields
    ensures resp.body.fields["status"] == Str("alive") && resp.body.fields["timestamp"] == Str(timestamp)
  {
    Response(StatusOk, Obj(map["status" := Str("alive"), "timestamp" := Str(timestamp)]))
  }

  /** 'warning' is not 'ok': a single warning check turns the detailed status to 'error'. */
  lemma WarningFailsDetailed(checks: seq<Check>, i: nat, timestamp: string, version: Option<string>, environment: string)
    requires i < |checks| && checks[i].status == "warning"
    ensures Detailed(checks, timestamp, version, environment).status == StatusServiceUnavailable
  {
  }

  /** With no checks at all the status is 'ok'. */
  lemma NoChecksIsOk(timestamp: string, version: Option<string>, environment: string)
    ensures Detailed([], timestamp, version, environment).status == StatusOk
    ensures Ready([]).status == StatusOk
  {
  }

  /** Selecting the failing checks commutes with concatenation, so it keeps their order. */
  lemma {:induction false} FailingAppend(a: seq<Check>, b: seq<Check>)
    ensures Failing(a + b) == Failing(a) + Failing(b)
  {
    if a == [] {
      assert a + b == b;
    } else {
      assert (a + b)[1..] == a[1..] + b;
      FailingAppend(a[1..], b);
      assert (a + b)[0] == a[0];
    }
  }

  /** No failing checks exactly when all are 'ok'. */
  lemma {:induction false} FailingEmptyIff(checks: seq<Check>)
    ensures Failing(checks) == [] <==> AllOk(checks)
  {
    if checks != [] {
      FailingEmptyIff(checks[1..]);
    }
  }

  /** Readiness runs the first two health checks, database and redis, and nothing else. */
  lemma ReadinessIsPrefixOfHealth(database: Check, redis: Option<Check>, disk: Check, memory: Option<Check>)
    ensures var health := PerformHealthChecks(database, redis, disk, memory);
      var ready := PerformReadinessChecks(database, redis);
      |ready| <= |health| && health[..|ready|] == ready
  {
    var ready := PerformReadinessChecks(database, redis);
    var health := PerformHealthChecks(database, redis, disk, memory);
    assert health == ready + ([disk] + Ran(memory));
    assert health[..|ready|] == ready;
  }
}
