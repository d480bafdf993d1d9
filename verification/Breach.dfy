/**
 `evaluate_rule`: does a server's latest telemetry breach an alert rule?

 Times are microseconds since a fixed epoch.  Percentages are reals: rounding is not modelled.
 */
module Breach {
  import opened Basics

  const MINUTE := 60_000_000
  const DAY := 24 * 60 * MINUTE

  datatype Metric = Cpu | Ram | Disk | ServerOffline | ServiceDown | SslExpiry

  datatype Rule = Rule(metric: Metric, threshold: Option<real>, serviceName: string, sslDomain: string)

  datatype Service = Service(name: string, status: string)

  /** `Unusable` stands for text that is no ISO date, or a date without a time zone. */
  datatype Expiry = Absent | Unusable | At(time: int)

  datatype Cert = Cert(domains: seq<string>, expiry: Expiry)

  datatype Server = Server(
    cpu: Option<real>, ramUsed: Option<real>, ramTotal: Option<real>, disk: Option<real>,
    lastSeen: Option<int>, services: seq<Service>, certs: seq<Cert>)

  /** `rule.threshold or 0`. */
  function Threshold(rule: Rule): real {
    if rule.threshold.Some? then rule.threshold.value else 0.0
  }

  /** `(expiry - now).days`: the floor, also for a certificate that has expired. */
  function DaysLeft(expiry: int, now: int): int {
    (expiry - now) / DAY
  }

  predicate CertBreaches(rule: Rule, cert: Cert, now: int) {
    rule.sslDomain in cert.domains && cert.expiry.At? && DaysLeft(cert.expiry.time, now) as real <= Threshold(rule)
  }

  predicate ServiceBreaches(rule: Rule, service: Service) {
    service.name == rule.serviceName && service.status != "running"
  }

  /** When a rule is breached, said without any order of search. */
  predicate Breached(rule: Rule, server: Server, now: int) {
    match rule.metric
    case Cpu => server.cpu.Some? && server.cpu.value >= Threshold(rule)
    case Ram =>
      && server.ramUsed.Some? && server.ramUsed.value != 0.0 && server.ramTotal.Some? && server.ramTotal.value != 0.0
      && server.ramUsed.value / server.ramTotal.value * 100.0 >= Threshold(rule)
    case Disk => server.disk.Some? && server.disk.value >= Threshold(rule)
    case ServerOffline => server.lastSeen.Some? && now - server.lastSeen.value > 5 * MINUTE
    case ServiceDown =>
      && rule.serviceName != ""
      && exists i :: 0 <= i < |server.services| && ServiceBreaches(rule, server.services[i])
    case SslExpiry =>
      && rule.sslDomain != ""
      && exists i :: 0 <= i < |server.certs| && CertBreaches(rule, server.certs[i], now)
  }

  lemma PercentOf(used: real, total: real)
    requires total != 0.0
    ensures used / total * 100.0 * total == used * 100.0
  {
  }

  method EvaluateRule(rule: Rule, server: Server, now: int) returns (breached: bool, value: Option<real>)
    ensures breached <==> Breached(rule, server, now)
    ensures breached <==> value.Some?
    ensures breached && rule.metric.Cpu? ==> value == server.cpu
    ensures breached && rule.metric.Disk? ==> value == server.disk
    ensures breached && rule.metric.Ram? ==> value.value * server.ramTotal.value == server.ramUsed.value * 100.0
    ensures breached && rule.metric.ServerOffline? ==>
              value.value * (MINUTE as real) == (now - server.lastSeen.value) as real
    ensures breached && rule.metric.ServiceDown? ==> value == Some(0.0)
    ensures breached && rule.metric.SslExpiry? ==>
              exists i :: 0 <= i < |server.certs| && CertBreaches(rule, server.certs[i], now)
                          && value == Some(DaysLeft(server.certs[i].expiry.time, now) as real)
                          && forall j :: 0 <= j < i ==> !CertBreaches(rule, server.certs[j], now)
  {
    match rule.metric {
      case Cpu =>
        if server.cpu.Some? && server.cpu.value >= Threshold(rule) {
          return true, server.cpu;
        }
      case Ram =>
        if server.ramUsed.Some? && server.ramUsed.value != 0.0
           && server.ramTotal.Some? && server.ramTotal.value != 0.0 {
          var percent := server.ramUsed.value / server.ramTotal.value * 100.0;
          if percent >= Threshold(rule) {
            PercentOf(server.ramUsed.value, server.ramTotal.value);
            return true, Some(percent);
          }
        }
      case Disk =>
        if server.disk.Some? && server.disk.value >= Threshold(rule) {
          return true, server.disk;
        }
      case ServerOffline =>
        if server.lastSeen.Some? {
          var diff := now - server.lastSeen.value;
          if diff > 5 * MINUTE {
            return true, Some(diff as real / MINUTE as real);
          }
        }
      case ServiceDown =>
        if rule.serviceName != "" {
          var i := 0;
          while i < |server.services|
            invariant 0 <= i <= |server.services|
            invariant forall j :: 0 <= j < i ==> !ServiceBreaches(rule, server.services[j])
          {
            if server.services[i].name == rule.serviceName && server.services[i].status != "running" {
              assert ServiceBreaches(rule, server.services[i]);
              return true, Some(0.0);
            }
            i := i + 1;
          }
        }
      case SslExpiry =>
        if rule.sslDomain != "" {
          var i := 0;
          while i < |server.certs|
            invariant 0 <= i <= |server.certs|
            invariant forall j :: 0 <= j < i ==> !CertBreaches(rule, server.certs[j], now)
          {
            var cert := server.certs[i];
            if rule.sslDomain in cert.domains && cert.expiry.At? {
              var daysLeft := (cert.expiry.time - now) / DAY;
              if daysLeft as real <= Threshold(rule) {
                assert CertBreaches(rule, server.certs[i], now);
                return true, Some(daysLeft as real);
              }
            }
            i := i + 1;
          }
        }
    }
    return false, None;
  }

  lemma ProductOfPositives(a: real, c: real)
    requires a >= 0.0 && c > 0.0
    ensures a * c >= 0.0 && (a > 0.0 ==> a * c > 0.0)
  {
  }

  lemma ScaledCompare(a: real, b: real, c: real)
    requires c > 0.0
    ensures a >= b <==> a * c >= b * c
  {
    if a >= b {
      ProductOfPositives(a - b, c);
    } else {
      ProductOfPositives(b - a, c);
      assert (b - a) * c > 0.0;
    }
  }

  /**
   The rules about a percentage: with limit `t`, each is breached exactly when its percentage is
   reported and at least `t`.  The share of memory is used to total, and a size of zero counts
   as not reported.
   */
  lemma PercentageBreachIff(rule: Rule, server: Server, now: int, t: real)
    requires rule.threshold == Some(t)
    requires server.ramTotal.Some? ==> server.ramTotal.value >= 0.0
    ensures rule.metric == Cpu ==> (Breached(rule, server, now) <==> server.cpu.Some? && server.cpu.value >= t)
    ensures rule.metric == Disk ==> (Breached(rule, server, now) <==> server.disk.Some? && server.disk.value >= t)
    ensures rule.metric == Ram ==>
              (Breached(rule, server, now)
               <==> && server.ramUsed.Some? && server.ramTotal.Some?
                    && server.ramUsed.value != 0.0 && server.ramTotal.value > 0.0
                    && 100.0 * server.ramUsed.value >= t * server.ramTotal.value)
  {
    if server.ramUsed.Some? && server.ramTotal.Some? && server.ramTotal.value > 0.0 {
      var total := server.ramTotal.value;
      PercentOf(server.ramUsed.value, total);
      ScaledCompare(server.ramUsed.value / total * 100.0, t, total);
    }
  }

  /** A rule without a limit acts as one with the limit zero. */
  lemma NoThresholdIsZero(rule: Rule, server: Server, now: int)
    requires rule.threshold == None
    ensures Breached(rule, server, now) <==> Breached(rule.(threshold := Some(0.0)), server, now)
  {
    var zero := rule.(threshold := Some(0.0));
    forall service ensures ServiceBreaches(rule, service) <==> ServiceBreaches(zero, service) {
    }
    forall cert ensures CertBreaches(rule, cert, now) <==> CertBreaches(zero, cert, now) {
    }
  }

  /** Offline means not seen for more than five minutes of 60 seconds, in microseconds; never seen is not offline. */
  lemma OfflineIff(rule: Rule, server: Server, now: int)
    requires rule.metric == ServerOffline
    ensures Breached(rule, server, now) <==> server.lastSeen.Some? && now > server.lastSeen.value + 5 * 60 * 1_000_000
  {
  }

  /** A named service is down if some entry of that name has any status but "running". */
  lemma ServiceDownIff(rule: Rule, server: Server, now: int)
    requires rule.metric == ServiceDown
    ensures Breached(rule, server, now)
            <==> rule.serviceName != "" && exists service :: service in server.services
                                             && service.name == rule.serviceName && service.status != "running"
  {
    if rule.serviceName != "" {
      if service :| service in server.services && service.name == rule.serviceName && service.status != "running" {
        var i :| 0 <= i < |server.services| && server.services[i] == service;
        assert ServiceBreaches(rule, server.services[i]);
      }
      if i :| 0 <= i < |server.services| && ServiceBreaches(rule, server.services[i]) {
        assert server.services[i] in server.services;
      }
    }
  }

  /** A span of microseconds holds `days` whole days, the rest of a day left over. */
  predicate CountsAs(span: int, days: int) {
    days * 86_400_000_000 <= span < (days + 1) * 86_400_000_000
  }

  ghost predicate DaysAtMost(span: int, t: real) {
    exists days: int :: CountsAs(span, days) && days as real <= t
  }

  /**
   A certificate rule with limit `t` is breached exactly when a certificate of its domain has a
   readable expiry at most `t` whole days of 86400 seconds away, counted down, so that one that
   expired less than a day ago has -1 left.
   */
  lemma CertificateBreachIff(rule: Rule, server: Server, now: int, t: real)
    requires rule.metric == SslExpiry && rule.threshold == Some(t)
    ensures Breached(rule, server, now)
            <==> rule.sslDomain != ""
                 && exists cert :: cert in server.certs && rule.sslDomain in cert.domains && cert.expiry.At?
                                   && DaysAtMost(cert.expiry.time - now, t)
  {
    if rule.sslDomain != "" {
      if i :| 0 <= i < |server.certs| && CertBreaches(rule, server.certs[i], now) {
        var cert := server.certs[i];
        assert cert in server.certs && CountsAs(cert.expiry.time - now, DaysLeft(cert.expiry.time, now));
      }
      if cert :| cert in server.certs && rule.sslDomain in cert.domains && cert.expiry.At?
                 && DaysAtMost(cert.expiry.time - now, t) {
        var days: int :| CountsAs(cert.expiry.time - now, days) && days as real <= t;
        var i :| 0 <= i < |server.certs| && server.certs[i] == cert;
        assert days == DaysLeft(cert.expiry.time, now);
        assert CertBreaches(rule, server.certs[i], now);
      }
    }
  }

  /** The days left only fall as time passes, also below zero. */
  lemma DaysLeftFalls(expiry: int, earlier: int, later: int)
    requires earlier <= later
    ensures DaysLeft(expiry, later) <= DaysLeft(expiry, earlier)
  {
  }

  /** With data and rule fixed, an offline or certificate breach stays a breach for ever. */
  lemma BreachPersists(rule: Rule, server: Server, earlier: int, later: int)
    requires earlier <= later && (rule.metric.ServerOffline? || rule.metric.SslExpiry?)
    requires Breached(rule, server, earlier)
    ensures Breached(rule, server, later)
  {
    if rule.metric.SslExpiry? {
      var i :| 0 <= i < |server.certs| && CertBreaches(rule, server.certs[i], earlier);
      DaysLeftFalls(server.certs[i].expiry.time, earlier, later);
      assert CertBreaches(rule, server.certs[i], later);
    }
  }
}
