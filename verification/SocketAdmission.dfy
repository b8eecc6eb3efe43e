/**
 Admission of socket connections: two attempt limits, and counters of live reservations
 kept beside the reservations themselves.
 */
module SocketAdmission {
  import opened IngressScopes
  import opened Numbers

  /** A request is identified by its object. A released reservation is no longer stored. */
  type Request = nat

  datatype Reservation = Reservation(sourceIp: string, activated: bool)

  type Reservations = map<Request, Reservation>

  function From(reservations: Reservations, ip: string): set<Request> {
    set q | q in reservations && reservations[q].sourceIp == ip
  }

  /** The counters count the stored reservations, and neither limit is passed. */
  ghost predicate Balanced(active: int, activeByIp: map<string, int>, reservations: Reservations, maximum: nat, maximumPerIp: nat) {
    && active == |reservations| <= maximum
    && (forall ip :: ip in activeByIp <==> From(reservations, ip) != {})
    && (forall ip | ip in activeByIp :: activeByIp[ip] == |From(reservations, ip)| <= maximumPerIp)
  }

  lemma Reserving(reservations: Reservations, request: Request, r: Reservation, ip: string)
    requires request !in reservations
    ensures From(reservations[request := r], ip)
         == if r.sourceIp == ip then From(reservations, ip) + {request} else From(reservations, ip)
    ensures |reservations[request := r]| == |reservations| + 1
  {
  }

  lemma Releasing(reservations: Reservations, request: Request, ip: string)
    requires request in reservations
    ensures From(reservations - {request}, ip)
         == if reservations[request].sourceIp == ip then From(reservations, ip) - {request} else From(reservations, ip)
    ensures |reservations - {request}| == |reservations| - 1
  {
  }

  lemma ReserveKeeps(active: int, activeByIp: map<string, int>, reservations: Reservations, maximum: nat, maximumPerIp: nat,
                     request: Request, ip: string)
    requires Balanced(active, activeByIp, reservations, maximum, maximumPerIp) && request !in reservations
    requires active < maximum && (if ip in activeByIp then activeByIp[ip] else 0) < maximumPerIp
    ensures Balanced(active + 1, activeByIp[ip := (if ip in activeByIp then activeByIp[ip] else 0) + 1],
                     reservations[request := Reservation(ip, false)], maximum, maximumPerIp)
  {
    forall other: string
      ensures From(reservations[request := Reservation(ip, false)], other)
           == if ip == other then From(reservations, other) + {request} else From(reservations, other)
    {
      Reserving(reservations, request, Reservation(ip, false), other);
    }
    Reserving(reservations, request, Reservation(ip, false), ip);
  }

  lemma ActivateKeeps(active: int, activeByIp: map<string, int>, reservations: Reservations, maximum: nat, maximumPerIp: nat, request: Request)
    requires Balanced(active, activeByIp, reservations, maximum, maximumPerIp) && request in reservations
    ensures Balanced(active, activeByIp, reservations[request := reservations[request].(activated := true)], maximum, maximumPerIp)
  {
    var next := reservations[request := reservations[request].(activated := true)];
    assert next.Keys == reservations.Keys && |next| == |next.Keys| && |reservations| == |reservations.Keys|;
    assert forall ip :: From(next, ip) == From(reservations, ip);
  }

  /** The counter of the source address never runs out before its last reservation, so the two clamps do nothing. */
  lemma ReleaseKeeps(active: int, activeByIp: map<string, int>, reservations: Reservations, maximum: nat, maximumPerIp: nat, request: Request)
    requires Balanced(active, activeByIp, reservations, maximum, maximumPerIp) && request in reservations
    ensures var ip := reservations[request].sourceIp;
      && active >= 1 && ip in activeByIp && activeByIp[ip] >= 1
      && Balanced(active - 1, if activeByIp[ip] == 1 then activeByIp - {ip} else activeByIp[ip := activeByIp[ip] - 1],
                  reservations - {request}, maximum, maximumPerIp)
  {
    var ip := reservations[request].sourceIp;
    assert request in From(reservations, ip);
    forall other: string
      ensures From(reservations - {request}, other)
           == if ip == other then From(reservations, other) - {request} else From(reservations, other)
    {
      Releasing(reservations, request, other);
    }
    Releasing(reservations, request, ip);
    var left := From(reservations, ip) - {request};
    assert |left| == |From(reservations, ip)| - 1;
    assert left == {} <==> |left| == 0;
  }

  class SocketAdmissionController {
    const maximumConnections: nat
    const maximumConnectionsPerIp: nat
    const globalAttemptLimits: Limits
    const ipAttemptLimits: Limits
    const globalAttempts: TrafficBucket
    const ipAttempts: BoundedTrafficScopes
    var active: int
    var activeByIp: map<string, int>
    var reservations: Reservations

    ghost predicate Valid()
      reads this, globalAttempts, ipAttempts, ipAttempts.Repr
    {
      && ipAttempts.Valid() && globalAttempts !in ipAttempts.Repr
      && Balanced(active, activeByIp, reservations, maximumConnections, maximumConnectionsPerIp)
    }

    constructor (maximumConnections: nat, maximumConnectionsPerIp: nat, attempts: nat, attemptsPerIp: nat, maxIpScopes: nat, scopeIdleMs: int, now: int)
      ensures Valid() && reservations == map[]
      ensures this.maximumConnections == maximumConnections && this.maximumConnectionsPerIp == maximumConnectionsPerIp
      ensures globalAttemptLimits == Limits(attempts, 1) && ipAttemptLimits == Limits(attemptsPerIp, 1)
      ensures globalAttempts.View() == NewBucket(now) && ipAttempts.View() == Scopes(map[], now + RATE_WINDOW_MS)
      ensures ipAttempts.Limit() == Config(maxIpScopes, Max(RATE_WINDOW_MS, scopeIdleMs))
    {
      this.maximumConnections, this.maximumConnectionsPerIp := maximumConnections, maximumConnectionsPerIp;
      globalAttemptLimits, ipAttemptLimits := Limits(attempts, 1), Limits(attemptsPerIp, 1);
      var bucket := new TrafficBucket(now);
      var scopes := new BoundedTrafficScopes(maxIpScopes, Max(RATE_WINDOW_MS, scopeIdleMs), now);
      globalAttempts, ipAttempts := bucket, scopes;
      active, activeByIp, reservations := 0, map[], map[];
    }

    /** Both attempt limits are charged, even when one of them already refuses. */
    method AttemptAllowed(sourceIp: string, now: int) returns (allowed: bool)
      requires Valid()
      modifies globalAttempts, ipAttempts, ipAttempts.Repr
      ensures Valid() && fresh(ipAttempts.Repr - old(ipAttempts.Repr))
      ensures allowed == AttemptAdmitted(old(globalAttempts.View()), old(ipAttempts.View()), sourceIp, now)
      ensures globalAttempts.View() == AfterCharge(old(globalAttempts.View()), globalAttemptLimits, 0, now)
      ensures ipAttempts.View() == AfterConsume(old(ipAttempts.View()), ipAttempts.Limit(), sourceIp, ipAttemptLimits, 0, now)
    {
      var globalAttempt := globalAttempts.Consume(globalAttemptLimits, 0, now);
      assert ipAttempts.View() == old(ipAttempts.View());
      var ipAttempt := ipAttempts.Consume(sourceIp, ipAttemptLimits, 0, now);
      allowed := globalAttempt.allowed && ipAttempt.allowed;
    }

    ghost predicate AttemptAdmitted(bucket: Bucket, scopes: Scopes, sourceIp: string, now: int) {
      var outcome := OutcomeOf(scopes, ipAttempts.Limit(), sourceIp, ipAttemptLimits, 0, now);
      DecisionFor(bucket, globalAttemptLimits, 0, now).allowed && outcome.Decided? && outcome.decision.allowed
    }

    /** A place for the request, unless there are none left in all or for its address. */
    method Claim(request: Request, sourceIp: string) returns (claimed: bool)
      requires Valid() && request !in reservations
      modifies this`active, this`activeByIp, this`reservations
      ensures Valid()
      ensures claimed <==> |old(reservations)| < maximumConnections && |From(old(reservations), sourceIp)| < maximumConnectionsPerIp
      ensures reservations == if claimed then old(reservations)[request := Reservation(sourceIp, false)] else old(reservations)
    {
      var fromIp := if sourceIp in activeByIp then activeByIp[sourceIp] else 0;
      assert fromIp == |From(reservations, sourceIp)|;
      if active >= maximumConnections || fromIp >= maximumConnectionsPerIp {
        return false;
      }
      ReserveKeeps(active, activeByIp, reservations, maximumConnections, maximumConnectionsPerIp, request, sourceIp);
      active := active + 1;
      activeByIp := activeByIp[sourceIp := fromIp + 1];
      reservations := reservations[request := Reservation(sourceIp, false)];
      return true;
    }

    /**
       Admitted exactly when the request holds no reservation, both attempt limits agree, and fewer
       reservations are stored than allowed, in all and from its address.
     */
    method Reserve(request: Request, sourceIp: string, now: int) returns (admitted: bool)
      requires Valid()
      modifies this`active, this`activeByIp, this`reservations, globalAttempts, ipAttempts, ipAttempts.Repr
      ensures Valid() && fresh(ipAttempts.Repr - old(ipAttempts.Repr))
      ensures admitted <==>
        && request !in old(reservations)
        && AttemptAdmitted(old(globalAttempts.View()), old(ipAttempts.View()), sourceIp, now)
        && |old(reservations)| < maximumConnections && |From(old(reservations), sourceIp)| < maximumConnectionsPerIp
      ensures reservations == if admitted then old(reservations)[request := Reservation(sourceIp, false)] else old(reservations)
      ensures request in old(reservations) ==>
        globalAttempts.View() == old(globalAttempts.View()) && ipAttempts.View() == old(ipAttempts.View())
      ensures request !in old(reservations) ==>
        && globalAttempts.View() == AfterCharge(old(globalAttempts.View()), globalAttemptLimits, 0, now)
        && ipAttempts.View() == AfterConsume(old(ipAttempts.View()), ipAttempts.Limit(), sourceIp, ipAttemptLimits, 0, now)
    {
      if request in reservations {
        return false;
      }
      var allowed := AttemptAllowed(sourceIp, now);
      if !allowed {
        return false;
      }
      admitted := Claim(request, sourceIp);
    }

    /** Each reservation is activated at most once. */
    method Activate(request: Request) returns (activated: bool)
      requires Valid()
      modifies this`reservations
      ensures Valid()
      ensures activated <==> request in old(reservations) && !old(reservations)[request].activated
      ensures reservations == if activated then old(reservations)[request := old(reservations)[request].(activated := true)] else old(reservations)
    {
      if request !in reservations || reservations[request].activated {
        return false;
      }
      ActivateKeeps(active, activeByIp, reservations, maximumConnections, maximumConnectionsPerIp, request);
      reservations := reservations[request := reservations[request].(activated := true)];
      return true;
    }

    /** Run by the reservation's timer or when the connection ends; a second run changes nothing. */
    method Release(request: Request)
      requires Valid()
      modifies this`active, this`activeByIp, this`reservations
      ensures Valid() && reservations == old(reservations) - {request}
      ensures request !in old(reservations) ==> active == old(active) && activeByIp == old(activeByIp)
    {
      if request !in reservations {
        return;
      }
      ReleaseKeeps(active, activeByIp, reservations, maximumConnections, maximumConnectionsPerIp, request);
      var sourceIp := reservations[request].sourceIp;
      reservations := reservations - {request};
      active := Max(0, active - 1);
      var remaining := (if sourceIp in activeByIp then activeByIp[sourceIp] else 1) - 1;
      if remaining <= 0 {
        activeByIp := activeByIp - {sourceIp};
      } else {
        activeByIp := activeByIp[sourceIp := remaining];
      }
    }
  }
}
