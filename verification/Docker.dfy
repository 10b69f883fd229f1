/** The host a job runs on: Docker's containers, with the rule that a container cannot
    be removed while another borrows its network namespace, and the camera leases. */
module Docker {
  import opened Lists
  import opened Options

  type JobId = string
  type Name = string
  type Index = nat

  datatype Role = DeviceRole | GatewayRole | CameraRole
  datatype Network = Joined(network: Option<string>) | InsideOf(container: Name)

  /** What the worker writes on a container, and where it put it. */
  datatype Container = Container(
    owned: bool,
    job: Option<JobId>,
    account: Option<string>,
    role: Option<Role>,
    createdAt: Option<int>,
    camera: Option<Index>,
    network: Network)

  type Containers = map<Name, Container>

  ghost predicate Borrowed(containers: Containers, name: Name) {
    exists n :: n in containers && containers[n].network == InsideOf(name)
  }

  /** What `docker ps` filtered by the owner's label lists, in some order. */
  ghost predicate IsListing(listing: seq<Name>, containers: Containers) {
    && (forall n :: n in listing <==> n in containers && containers[n].owned)
    && Distinct(listing)
  }

  // ----- names -----

  function Clip(s: string): string {
    if |s| <= 60 then s else s[..60]
  }

  function EmulatorName(job: JobId): Name { Clip("emulator-job-" + job) }

  function RedroidName(job: JobId): Name { Clip("redroid-job-" + job) }

  function GatewayName(job: JobId): Name { Clip("redroid-gw-" + job) }

  function BridgeName(job: JobId): Name { Clip("redroid-cam-" + job) }

  /** The containers one job may have. */
  datatype Names = Names(device: Name, gateway: Name, bridge: Name)

  function EmulatorNames(job: JobId): Names { Names(EmulatorName(job), GatewayName(job), BridgeName(job)) }

  function RedroidNames(job: JobId): Names { Names(RedroidName(job), GatewayName(job), BridgeName(job)) }

  predicate Apart(n: Names) {
    n.device != n.gateway && n.device != n.bridge && n.gateway != n.bridge
  }

  /** The prefixes alone keep one job's containers apart. */
  lemma NamesApart(job: JobId)
    ensures Apart(EmulatorNames(job)) && Apart(RedroidNames(job)) && EmulatorName(job) != RedroidName(job)
  {
    assert EmulatorName(job)[0] == 'e' && RedroidName(job)[0] == 'r' && GatewayName(job)[0] == 'r'
        && BridgeName(job)[0] == 'r';
    assert RedroidName(job)[8] == 'j' && GatewayName(job)[8] == 'g' && BridgeName(job)[8] == 'c';
  }

  /** Clipping at sixty keeps two jobs apart exactly when it leaves their ids different:
      always for ids of at most forty-seven characters. */
  lemma EmulatorNamesCollideIff(a: JobId, b: JobId)
    ensures EmulatorName(a) == EmulatorName(b) <==>
            a == b || (|a| >= 47 && |b| >= 47 && a[..47] == b[..47])
  {
    var x, y := "emulator-job-" + a, "emulator-job-" + b;
    assert a == x[13..] && b == y[13..];
    if |a| >= 47 { assert Clip(x) == "emulator-job-" + a[..47]; assert Clip(x)[13..] == a[..47]; }
    if |b| >= 47 { assert Clip(y) == "emulator-job-" + b[..47]; assert Clip(y)[13..] == b[..47]; }
  }

  // ----- the host -----

  datatype Event =
    | Ran(name: Name)
    | Removed(name: Name)
    | Refused(name: Name)                                     // the namespace rule
    | CameraFreed(index: Index, remaining: Containers)        // what was there at that moment

  class Host {
    var containers: Containers
    var leases: map<Index, JobId>
    var events: seq<Event>
    /** Containers a wedged daemon will not remove. */
    const wedged: set<Name>

    constructor (wedged: set<Name>)
      ensures containers == map[] && leases == map[] && events == [] && this.wedged == wedged
    {
      containers, leases, events := map[], map[], [];
      this.wedged := wedged;
    }

    /** `docker run`: a name in use is a conflict, and a failing run leaves nothing. */
    method Run(name: Name, c: Container, works: bool) returns (ok: bool)
      modifies this`containers, this`events
      ensures ok <==> works && name !in old(containers)
      ensures containers == if ok then old(containers)[name := c] else old(containers)
      ensures events == if ok then old(events) + [Ran(name)] else old(events)
    {
      if !works || name in containers {
        return false;
      }
      containers := containers[name := c];
      events := events + [Ran(name)];
      return true;
    }

    /** `docker rm`: nothing to do for an absent name, refused while another container is inside. */
    method Remove(name: Name) returns (ok: bool)
      modifies this`containers, this`events
      ensures ok <==> name !in wedged && (name in old(containers) ==> !Borrowed(old(containers), name))
      ensures containers == if ok then old(containers) - {name} else old(containers)
      ensures events == old(events) + if name in wedged || name !in old(containers) then []
                                      else if ok then [Removed(name)] else [Refused(name)]
    {
      if name in wedged {
        return false;
      }
      if name !in containers {
        assert containers - {name} == containers;
        return true;
      }
      if exists n :: n in containers && containers[n].network == InsideOf(name) {
        events := events + [Refused(name)];
        return false;
      }
      containers := containers - {name};
      events := events + [Removed(name)];
      return true;
    }

    method ListByLabel() returns (listing: seq<Name>)
      ensures IsListing(listing, containers)
    {
      listing := [];
      var left := containers.Keys;
      while left != {}
        invariant forall n :: n in listing <==> n in containers && containers[n].owned && n !in left
        invariant Distinct(listing)
      {
        var n :| n in left;
        left := left - {n};
        if n in containers && containers[n].owned {
          listing := listing + [n];
        }
      }
    }

    /** Only the job that holds the lease can free it. */
    method FreeCamera(index: Index, job: JobId)
      modifies this`leases, this`events
      ensures leases == if index in old(leases) && old(leases)[index] == job then old(leases) - {index} else old(leases)
      ensures events == old(events) + [CameraFreed(index, containers)]
    {
      if index in leases && leases[index] == job {
        leases := leases - {index};
      }
      events := events + [CameraFreed(index, containers)];
    }

    method LeaseCamera(pool: seq<Index>, job: JobId) returns (index: Option<Index>)
      modifies this`leases
      ensures index.Some? ==>
                index.value in pool && index.value !in old(leases) && leases == old(leases)[index.value := job]
      ensures index.None? ==> leases == old(leases) && forall i :: i in pool ==> i in leases
    {
      for n := 0 to |pool|
        invariant leases == old(leases) && forall i :: i in pool[..n] ==> i in leases
      {
        if pool[n] !in leases {
          leases := leases[pool[n] := job];
          return Some(pool[n]);
        }
        assert pool[..n + 1] == pool[..n] + [pool[n]];
      }
      assert pool[..|pool|] == pool;
      return None;
    }
  }
}
