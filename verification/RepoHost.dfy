/** The agent's side of the repo host, effect by effect. `w` is the Node: the
    agent's files and Docker. Every effect is one step of RepoHostRuns and is
    recorded in `trace`, so each method's trace is a run, and so is any prefix of
    it, which is what an agent killed half-way leaves.

    Between any two effects the server may die, or die and be restarted by its
    own restart policy, which reads the file. A stopped server is started by no
    one but the agent. Calls into Docker and the file system fail at will. */
module RepoHost {
  import opened ServerConf
  import opened RepoHostRuns

  predicate SameFiles(a: World, b: World) {
    b == a.(server := b.server, attached := b.attached)
  }

  /** What the server may do on its own. */
  predicate Interferes(a: World, b: World) {
    && SameFiles(a, b) && a.attached == b.attached
    && (b.server.Running? ==> a.server.Running? && (b.server.loaded == a.server.loaded || b.server.loaded == a.conf))
  }

  /** A server that answers has loaded the file. */
  predicate Fresh(w: World) {
    w.server.Running? && !w.server.broken ==> w.server.loaded == w.conf
  }

  /** A server that runs has loaded the file. */
  predicate Reloaded(w: World) {
    w.server.Running? ==> w.server.loaded == w.conf
  }

  lemma RunGrows(trace: seq<World>, next: World, s3: S3)
    requires |trace| > 0 && IsRun(trace, s3) && Step(trace[|trace| - 1], next, s3)
    ensures IsRun(trace + [next], s3)
  {
  }

  class RepoHost {
    const s3: S3
    var w: World
    ghost var trace: seq<World>

    ghost predicate Valid()
      reads this
    {
      |trace| > 0 && trace[|trace| - 1] == w && IsRun(trace, s3)
    }

    /** The agent takes up whatever an earlier one left. */
    constructor (s3: S3, w: World)
      ensures Valid() && this.s3 == s3 && this.w == w && trace == [w]
    {
      this.s3 := s3;
      this.w := w;
      trace := [w];
    }

    method Become(next: World)
      requires Valid() && Step(w, next, s3)
      modifies this
      ensures Valid() && w == next && trace == old(trace) + [next]
    {
      RunGrows(trace, next, s3);
      w := next;
      trace := trace + [next];
    }

    // ------------------------------------------------------- outside effects

    method Interfere()
      requires Valid()
      modifies this
      ensures Valid() && old(trace) <= trace
      ensures Interferes(old(w), w)
      ensures old(Fresh(w)) ==> Fresh(w)
      ensures old(Reloaded(w)) ==> Reloaded(w)
    {
      var dies, restarts, silent: bool := *, *, *;
      if w.server.Running? && dies {
        Become(w.(server := Stopped(w.server.image)));
      } else if w.server.Running? && restarts {
        Become(w.(server := Running(w.server.image, w.conf, silent)));
      }
    }

    method SaveState(image: string, auths: Authorizations) returns (ok: bool)
      requires Valid()
      modifies this
      ensures Valid() && old(trace) <= trace
      ensures ok ==> Interferes(old(w).(auths := auths, image := image), w)
      ensures !ok ==> Interferes(old(w), w)
    {
      Interfere();
      ok := *;
      if ok {
        Become(w.(auths := auths, image := image));
      }
    }

    /** The file first, then its owner, then the agent's record of it: any of
        the three can fail, and the file may then be ahead of the record. */
    method WriteConfig(data: string) returns (ok: bool)
      requires Valid() && s3.endpoint.URL?
      requires data == Render(w.auths, s3) || (data == w.applied && data != "")
      modifies this
      ensures Valid() && old(trace) <= trace
      ensures w == old(w).(conf := w.conf, written := w.written, server := w.server)
      ensures ok ==> w.conf == data && w.written == data
      ensures !ok ==> (w.conf == data || w.conf == old(w).conf) && w.written == old(w).written
      ensures w.server.Running? ==> old(w).server.Running?
    {
      var replaced, owned, recorded: bool := *, *, *;
      Interfere();
      if !replaced {
        return false;
      }
      assert FileReplaced(w, w.(conf := data), s3);
      Become(w.(conf := data));
      Interfere();
      if !owned || !recorded {
        return false;
      }
      assert WriteRecorded(w, w.(written := data));
      Become(w.(written := data));
      return true;
    }

    method ConfirmApplied(data: string) returns (ok: bool)
      requires Valid() && s3.endpoint.URL?
      requires data == w.conf == w.written == Render(w.auths, s3) && Reloaded(w)
      modifies this
      ensures Valid() && old(trace) <= trace
      ensures ok ==> Interferes(old(w).(applied := data), w) && Reloaded(w)
      ensures !ok ==> Interferes(old(w), w)
    {
      Interfere();
      ok := *;
      if ok {
        assert Confirmed(w, w.(applied := data), s3);
        Become(w.(applied := data));
      }
    }

    method ContainerRunning() returns (ok: bool, running: bool)
      requires Valid()
      modifies this
      ensures Valid() && old(trace) <= trace
      ensures Interferes(old(w), w)
      ensures ok ==> running == w.server.Running?
    {
      Interfere();
      ok := *;
      running := w.server.Running?;
    }

    method RemoveContainer() returns (ok: bool)
      requires Valid()
      modifies this
      ensures Valid() && old(trace) <= trace && SameFiles(old(w), w)
      ensures ok ==> w.server.NoContainer?
    {
      Interfere();
      ok := *;
      if ok {
        Become(w.(server := NoContainer, attached := {}));
      }
    }

    /** Finds the container, or makes one; one of another image is replaced. */
    method EnsureContainer(image: string) returns (ok: bool, running: bool)
      requires Valid()
      modifies this
      ensures Valid() && old(trace) <= trace && SameFiles(old(w), w)
      ensures ok && running ==> w.server.Running? && old(w).server.Running?
      ensures ok && !running ==> w.server.Stopped?
    {
      Interfere();
      ok := *;
      if !ok {
        return false, false;
      }
      if !w.server.NoContainer? && w.server.image == image {
        return true, w.server.Running?;
      }
      if !w.server.NoContainer? {
        var removed := RemoveContainer();
        if !removed {
          return false, false;
        }
      }
      ok := *;
      if !ok {
        return false, false;
      }
      Become(w.(server := Stopped(image)));
      return true, false;
    }

    method StartContainer() returns (ok: bool)
      requires Valid()
      modifies this
      ensures Valid() && old(trace) <= trace && SameFiles(old(w), w)
      ensures !old(w).server.Running? ==> Reloaded(w)
      ensures ok ==> w.server.Running?
    {
      Interfere();
      var started, silent: bool := *, *;
      ok := *;
      if w.server.Running? {
        return true;
      }
      if w.server.NoContainer? || !started {
        return false;
      }
      Become(w.(server := Running(w.server.image, w.conf, silent)));
    }

    /** A delivered HUP makes the server load the file, or stop answering. */
    method Reload() returns (ok: bool)
      requires Valid()
      modifies this
      ensures Valid() && old(trace) <= trace && SameFiles(old(w), w)
      ensures ok ==> Fresh(w)
    {
      Interfere();
      var reached, loads, silent: bool := *, *, *;
      ok := *;
      if !w.server.Running? {
        return false;
      }
      if reached || ok {
        if loads {
          Become(w.(server := w.server.(loaded := w.conf, broken := silent)));
        } else {
          Become(w.(server := w.server.(broken := true)));
        }
      }
    }

    method Ping() returns (ok: bool)
      requires Valid()
      modifies this
      ensures Valid() && old(trace) <= trace && Interferes(old(w), w)
      ensures old(Fresh(w)) ==> Fresh(w) && (ok ==> Reloaded(w))
    {
      Interfere();
      ok := *;
      ok := ok && w.server.Running? && !w.server.broken;
    }

    /** Pings until one is answered or the deadline, wherever it falls. */
    method WaitReady() returns (ok: bool)
      requires Valid()
      modifies this
      ensures Valid() && old(trace) <= trace && SameFiles(old(w), w)
      ensures old(Fresh(w)) && ok ==> Reloaded(w)
    {
      var polls: nat := *;
      ok := false;
      while polls > 0 && !ok
        invariant Valid() && old(trace) <= trace && SameFiles(old(w), w)
        invariant old(Fresh(w)) ==> Fresh(w) && (ok ==> Reloaded(w))
        decreases polls
      {
        ok := Ping();
        polls := polls - 1;
      }
    }

    method Connect(network: string) returns (ok: bool)
      requires Valid()
      modifies this
      ensures Valid() && old(trace) <= trace
      ensures ok ==> Interferes(old(w).(attached := old(w).attached + {network}), w)
      ensures !ok ==> Interferes(old(w), w)
    {
      Interfere();
      ok := *;
      if ok {
        Become(w.(attached := w.attached + {network}));
      }
    }

    method Disconnect(network: string) returns (ok: bool)
      requires Valid()
      modifies this
      ensures Valid() && old(trace) <= trace
      ensures ok ==> Interferes(old(w).(attached := old(w).attached - {network}), w)
      ensures !ok ==> Interferes(old(w), w)
    {
      Interfere();
      ok := *;
      if ok {
        Become(w.(attached := w.attached - {network}));
      }
    }

    // ------------------------------------------------------ the agent's code

    /** Replaces the container by a new one, started on the file. */
    method Replace() returns (ok: bool)
      requires Valid()
      modifies this
      ensures Valid() && old(trace) <= trace && SameFiles(old(w), w)
      ensures ok ==> Reloaded(w)
    {
      var removed := RemoveContainer();
      if !removed {
        return false;
      }
      var made, running := EnsureContainer(w.image);
      if !made {
        return false;
      }
      ok := StartContainer();
    }

    /** Gets a server going that is not running, by a new container if need be. */
    method StartOrRecreate() returns (ok: bool)
      requires Valid() && !w.server.Running?
      modifies this
      ensures Valid() && old(trace) <= trace && SameFiles(old(w), w)
      ensures ok ==> Reloaded(w)
    {
      ok := StartContainer();
      if !ok {
        ok := Replace();
      }
    }

    /** Gets the server answering on the file as it is, replacing the container
        as a last resort. */
    method Revive() returns (ok: bool)
      requires Valid()
      modifies this
      ensures Valid() && old(trace) <= trace && SameFiles(old(w), w)
      ensures ok ==> Reloaded(w)
    {
      var known, running := ContainerRunning();
      if !known {
        return false;
      }
      if running {
        ok := Reload();
      } else {
        ok := StartContainer();
      }
      if ok {
        ok := WaitReady();
        if ok {
          return;
        }
      }
      ok := Replace();
      if ok {
        ok := WaitReady();
      }
    }

    /** Puts the confirmed configuration back and gets the server answering. */
    method Recover(previous: string) returns (ok: bool)
      requires Valid() && s3.endpoint.URL? && previous == w.applied
      modifies this
      ensures Valid() && old(trace) <= trace
      ensures w.auths == old(w).auths && w.image == old(w).image && w.applied == old(w).applied
      ensures ok ==> Reloaded(w) && (previous != "" ==> w.conf == w.written == previous)
    {
      if previous != "" {
        ok := WriteConfig(previous);
        if !ok {
          return;
        }
      }
      ok := Revive();
    }

    /** Makes the repo host match the saved state. */
    method Apply() returns (ok: bool)
      requires Valid()
      modifies this
      ensures Valid() && old(trace) <= trace
      ensures w.auths == old(w).auths && w.image == old(w).image
      ensures ok ==> s3.endpoint.URL? && w.applied == w.written == Render(w.auths, s3)
      ensures ok && (old(w).applied != w.applied || old(w).written != w.applied) ==> w.conf == w.applied && Reloaded(w)
    {
      var prepared: bool := *;
      if w.image == "" {
        return false;
      }
      var rendered := RenderServerConfig(w.auths, s3);
      if rendered.Refused? || !prepared {
        return false;
      }
      var desired := rendered.text;
      var previous := w.applied;
      var changed := w.applied != desired || w.written != desired;
      if changed {
        var put := WriteConfig(desired);
        if !put {
          return false;
        }
      }
      ok := Activate(desired, previous, changed);
      if !ok {
        return false;
      }
      ok := ConnectAll();
    }

    /** Starts or reloads the server on the file just written, waits for it, and
        confirms; a server that does not answer gets the previous file back. */
    method Activate(desired: string, previous: string, changed: bool) returns (ok: bool)
      requires Valid() && s3.endpoint.URL?
      requires desired == Render(w.auths, s3) && w.written == desired && previous == w.applied
      requires changed ==> w.conf == desired
      requires !changed ==> w.applied == desired
      modifies this
      ensures Valid() && old(trace) <= trace
      ensures w.auths == old(w).auths && w.image == old(w).image
      ensures ok ==> w.applied == w.written == desired
      ensures ok && changed ==> w.conf == desired && Reloaded(w)
    {
      var ensured, running := EnsureContainer(w.image);
      if !ensured {
        return false;
      }
      if !running {
        ok := StartOrRecreate();
        if !ok {
          return false;
        }
      } else if changed {
        ok := Reload();
        if !ok {
          return false;
        }
      }
      ok := WaitReady();
      if !ok {
        var _ := Recover(previous);
        return false;
      }
      if changed {
        ok := ConfirmApplied(desired);
      }
    }

    /** Attaches the repo host to the network of every authorization. */
    method ConnectAll() returns (ok: bool)
      requires Valid()
      modifies this
      ensures Valid() && old(trace) <= trace && SameFiles(old(w), w)
      ensures old(Reloaded(w)) ==> Reloaded(w)
      ensures ok ==> forall uid :: uid in w.auths ==> w.auths[uid].network in w.attached
    {
      var left := w.auths.Keys;
      while left != {}
        invariant Valid() && old(trace) <= trace && SameFiles(old(w), w)
        invariant old(Reloaded(w)) ==> Reloaded(w)
        invariant forall uid :: uid in w.auths && uid !in left ==> w.auths[uid].network in w.attached
        decreases left
      {
        var uid :| uid in left;
        var done := Connect(w.auths[uid].network);
        if !done {
          return false;
        }
        left := left - {uid};
      }
      return true;
    }

    /** Records the authorization, then applies it. On success it is confirmed. */
    method Authorize(uid: string, a: Authorization, image: string) returns (ok: bool)
      requires Valid()
      modifies this
      ensures Valid() && old(trace) <= trace
      ensures w.auths == old(w).auths || w.auths == old(w).auths[uid := a]
      ensures ok ==> w.auths == old(w).auths[uid := a]
      ensures ok && IsUID(uid) && WellFormed(w.auths, s3) ==> Confirms(w, uid)
    {
      if uid == "" || a.network == "" || a.stanzas == [] {
        return false;
      }
      var auths := w.auths[uid := a];
      var rendered := RenderServerConfig(auths, s3);
      if rendered.Refused? {
        return false;
      }
      ok := SaveState(if image != "" then image else w.image, auths);
      if !ok {
        return false;
      }
      ok := Apply();
      if ok && IsUID(uid) && WellFormed(w.auths, s3) {
        SearchIsExact(w.auths, s3, uid);
      }
    }

    /** Whether another authorization still uses the network. */
    ghost predicate InUse(network: string)
      reads this
    {
      exists uid :: uid in w.auths && w.auths[uid].network == network
    }

    method NetworkInUse(network: string) returns (used: bool)
      requires Valid()
      ensures used <==> InUse(network)
    {
      used := exists uid | uid in w.auths :: w.auths[uid].network == network;
    }

    /** Makes what is served match a state that no longer authorizes `uid`. */
    method ApplyWithout(uid: string) returns (ok: bool)
      requires Valid() && uid !in w.auths
      modifies this
      ensures Valid() && old(trace) <= trace
      ensures w.auths == old(w).auths && w.image == old(w).image
      ensures ok && !MayServe(old(w), uid) ==> Interferes(old(w), w)
      ensures ok && MayServe(old(w), uid) && IsUID(uid) && WellFormed(w.auths, s3) ==> Gone(w, uid)
    {
      var readable: bool := *;
      if !readable {
        return false;
      }
      if !MayServe(w, uid) {
        return true;
      }
      ghost var wf := IsUID(uid) && WellFormed(w.auths, s3);
      if wf {
        SearchIsExact(w.auths, s3, uid);
      }
      var known, running := ContainerRunning();
      if !known {
        return false;
      }
      if running {
        ok := Apply();
        return;
      }
      var rendered := RenderServerConfig(w.auths, s3);
      if rendered.Refused? {
        return false;
      }
      ok := WriteConfig(rendered.text);
      if !ok {
        return false;
      }
      ok := ConfirmApplied(rendered.text);
    }

    /** Takes `uid` out of the state, out of what is served, and the repo host out of
        its network, in this order. Where either copy held the UID, and wherever it
        was confirmed, success means nothing serves it or can start to; where neither
        copy did, the server is as it was left. */
    method Revoke(uid: string, network: string) returns (ok: bool)
      requires Valid()
      modifies this
      ensures Valid() && old(trace) <= trace
      ensures ok ==> w.auths == old(w).auths - {uid}
      ensures ok && MayServe(old(w), uid) && IsUID(uid) && WellFormed(w.auths, s3) ==> Gone(w, uid)
      ensures ok && !MayServe(old(w), uid) ==> Interferes(old(w).(auths := w.auths, attached := w.attached), w)
      ensures ok && Safe(old(w), uid) && IsUID(uid) && WellFormed(w.auths, s3) ==> Gone(w, uid)
      ensures var target := if network != "" then network else if uid in old(w).auths then old(w).auths[uid].network else "";
              ok && target != "" ==> InUse(target) || target !in w.attached
    {
      var target := network;
      if uid in w.auths {
        if target == "" {
          target := w.auths[uid].network;
        }
        ok := SaveState(w.image, w.auths - {uid});
        if !ok {
          return false;
        }
      }
      assert w.auths == old(w).auths - {uid};
      ok := ApplyWithout(uid);
      if !ok {
        return false;
      }
      var used := NetworkInUse(target);
      if target != "" && !used {
        ok := Disconnect(target);
      }
    }

    /** What the repo host still holds for `uid`: its authorization, or an
        attachment to `network` that no other authorization needs. */
    method Remaining(uid: string, network: string) returns (ok: bool, authorization: bool, attachment: bool)
      requires Valid()
      ensures ok ==> (authorization <==> uid in w.auths || MayServe(w, uid))
      ensures ok && !authorization && Safe(w, uid) ==> Gone(w, uid)
      ensures ok ==> (attachment <==> network != "" && !InUse(network) && network in w.attached)
    {
      ok := *;
      authorization := uid in w.auths || MayServe(w, uid);
      var used := NetworkInUse(network);
      attachment := network != "" && !used && network in w.attached;
    }

    /** Rebuilds the repo host from the saved state after an agent restart. */
    method Reconcile() returns (ok: bool)
      requires Valid()
      modifies this
      ensures Valid() && old(trace) <= trace
      ensures w.auths == old(w).auths && w.image == old(w).image
      ensures ok && w.auths != map[] && w.image != "" ==> s3.endpoint.URL? && w.applied == w.written == Render(w.auths, s3)
    {
      if w.auths == map[] || w.image == "" {
        return true;
      }
      ok := Apply();
    }
  }
}
