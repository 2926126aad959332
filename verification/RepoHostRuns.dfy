/** The repo host as the four copies of one configuration: the desired state,
    the file the server reads, the agent's record of what it wrote, its record
    of what is confirmed served, and what a running server holds in memory.

    Every single effect the agent or the server can have is a step. A crash of
    the agent is a run that stops anywhere and goes on with another call, so a
    property of every run holds at every failure and crash point. */
module RepoHostRuns {
  import opened Text
  import opened ServerConf

  /** `loaded` is the configuration in memory; a `broken` server answers no ping. */
  datatype Server = NoContainer | Stopped(image: string) | Running(image: string, loaded: string, broken: bool)

  /** Files are their contents, "" when absent. `attached` are the networks the
      container is connected to besides its own. */
  datatype World = World(
    image: string, auths: Authorizations,
    conf: string, written: string, applied: string,
    server: Server, attached: set<string>)

  /** A server that runs holds what it held, or what the file held when it
      started or reloaded. */
  predicate ServerMoves(a: World, b: World) {
    && b == a.(server := b.server, attached := b.attached)
    && (b.server.Running? ==> b.server.loaded == a.conf
                              || (a.server.Running? && b.server.loaded == a.server.loaded))
  }

  predicate StateSaved(a: World, b: World) {
    b == a.(auths := b.auths, image := b.image)
  }

  ghost predicate FileReplaced(a: World, b: World, s3: S3)
    requires s3.endpoint.URL?
  {
    b == a.(conf := Render(a.auths, s3)) || (a.applied != "" && b == a.(conf := a.applied))
  }

  predicate WriteRecorded(a: World, b: World) {
    b == a.(written := a.conf)
  }

  /** The file is confirmed: it is the desired configuration, recorded as
      written, and whatever server runs has loaded it. */
  ghost predicate Confirmed(a: World, b: World, s3: S3)
    requires s3.endpoint.URL?
  {
    && b == a.(applied := a.conf)
    && a.conf == a.written == Render(a.auths, s3)
    && (a.server.Running? ==> a.server.loaded == a.conf)
  }

  ghost predicate Step(a: World, b: World, s3: S3) {
    || ServerMoves(a, b)
    || StateSaved(a, b)
    || WriteRecorded(a, b)
    || (s3.endpoint.URL? && (FileReplaced(a, b, s3) || Confirmed(a, b, s3)))
  }

  ghost predicate IsRun(trace: seq<World>, s3: S3) {
    forall i :: 0 < i < |trace| ==> Step(trace[i - 1], trace[i], s3)
  }

  /** The search of `servesUID`: the confirmed copy, then the written one. */
  predicate MayServe(w: World, uid: string) {
    Authorizes(w.applied, uid) || Authorizes(w.written, uid)
  }

  /** What is really served. */
  predicate Serves(w: World, uid: string) {
    w.server.Running? && Authorizes(w.server.loaded, uid)
  }

  predicate Confirms(w: World, uid: string) {
    Authorizes(w.applied, uid)
  }

  /** Nothing a server could load, and nothing one has loaded, authorizes `uid`. */
  predicate Idle(w: World, uid: string) {
    !HasStanza(w.auths, uid) && !Authorizes(w.conf, uid) && !Serves(w, uid)
  }

  /** ... nor does either recorded copy. */
  predicate Gone(w: World, uid: string) {
    Idle(w, uid) && !MayServe(w, uid)
  }

  predicate Safe(w: World, uid: string) {
    Confirms(w, uid) || Idle(w, uid)
  }

  /** A UID as the server generates them. */
  predicate IsUID(uid: string) {
    Free(uid, '=') && Free(uid, '\n') && uid != NO_CLIENT_UID
  }

  /** `uid` is newly given a stanza while nothing confirms it. */
  predicate NewlyAuthorized(a: World, b: World, uid: string) {
    HasStanza(b.auths, uid) && !HasStanza(a.auths, uid) && !Confirms(a, uid)
  }

  lemma StepKeepsSafe(a: World, b: World, s3: S3, uid: string)
    requires Step(a, b, s3) && IsUID(uid) && WellFormed(a.auths, s3)
    requires Safe(a, uid) && !NewlyAuthorized(a, b, uid)
    ensures Safe(b, uid)
  {
    SearchIsExact(a.auths, s3, uid);
  }

  /** A confirmed UID stays in the confirmed copy until a configuration without
      it is confirmed: no running server has it loaded then, and the desired
      state no longer authorizes it. */
  lemma LeavesOnlyWhenUnserved(a: World, b: World, s3: S3, uid: string)
    requires Step(a, b, s3) && IsUID(uid) && WellFormed(a.auths, s3)
    requires Confirms(a, uid) && !Confirms(b, uid)
    ensures !Serves(a, uid) && !Serves(b, uid) && !HasStanza(b.auths, uid)
  {
    SearchIsExact(a.auths, s3, uid);
  }

  /** Over every run, with every crash: from a point where `uid` is confirmed, or
      neither served nor about to be, and as long as it is not authorized anew while
      unconfirmed, a server that serves it is always found out by the search that
      Revoke and Remaining rely on; where the search finds nothing, nothing is left. */
  lemma {:induction false} SearchNeverMissesASafeUID(trace: seq<World>, s3: S3, uid: string)
    requires |trace| > 0 && IsRun(trace, s3) && IsUID(uid)
    requires forall i :: 0 <= i < |trace| ==> WellFormed(trace[i].auths, s3)
    requires Safe(trace[0], uid)
    requires forall i :: 0 < i < |trace| ==> !NewlyAuthorized(trace[i - 1], trace[i], uid)
    ensures forall i :: 0 <= i < |trace| ==> Safe(trace[i], uid)
    ensures forall i :: 0 <= i < |trace| ==> Serves(trace[i], uid) ==> MayServe(trace[i], uid)
    ensures forall i :: 0 <= i < |trace| ==> !MayServe(trace[i], uid) ==> Gone(trace[i], uid)
  {
    if |trace| > 1 {
      var front := trace[..|trace| - 1];
      forall i | 0 < i < |front| ensures Step(front[i - 1], front[i], s3) && !NewlyAuthorized(front[i - 1], front[i], uid) {
        assert front[i - 1] == trace[i - 1] && front[i] == trace[i];
      }
      SearchNeverMissesASafeUID(front, s3, uid);
      assert trace[|trace| - 2] == front[|front| - 1];
      StepKeepsSafe(trace[|trace| - 2], trace[|trace| - 1], s3, uid);
      forall i | 0 <= i < |trace| ensures Safe(trace[i], uid) {
        if i < |front| { assert trace[i] == front[i]; }
      }
    }
  }

  /** A run from `w` over well-formed maps in which `uid` is not authorized anew
      while unconfirmed. */
  ghost predicate IsRunFrom(trace: seq<World>, w: World, s3: S3, uid: string) {
    && |trace| > 0 && trace[0] == w && IsRun(trace, s3)
    && (forall i :: 0 <= i < |trace| ==> WellFormed(trace[i].auths, s3))
    && forall i :: 0 < i < |trace| ==> !NewlyAuthorized(trace[i - 1], trace[i], uid)
  }

  /** Whatever happens from `w` on, the search finds `uid` while it is served. */
  ghost predicate Reliable(w: World, s3: S3, uid: string) {
    forall trace :: IsRunFrom(trace, w, s3, uid) ==> forall i :: 0 <= i < |trace| && Serves(trace[i], uid) ==> MayServe(trace[i], uid)
  }

  /** `uid` is written to the file if it is to be, and loaded from there if it is
      there. */
  ghost function Loaded(w: World, s3: S3, uid: string): World
    requires s3.endpoint.URL?
  {
    var put := Put(w, s3, uid);
    if Authorizes(put.conf, uid) then put.(server := Running(w.image, put.conf, true)) else put
  }

  ghost function Put(w: World, s3: S3, uid: string): World
    requires s3.endpoint.URL?
  {
    if HasStanza(w.auths, uid) then w.(conf := Render(w.auths, s3)) else w
  }

  /** The confirmed configuration put back over what is loaded. */
  function BackFrom(l: World): seq<World> {
    var back := l.(conf := l.applied);
    [back, back.(written := back.conf)]
  }

  /** The authorization dropped, and the file that was loaded overwritten. */
  ghost function DroppedFrom(l: World, s3: S3, uid: string): seq<World>
    requires s3.endpoint.URL?
  {
    var dropped := l.(auths := l.auths - {uid});
    var over := dropped.(conf := Render(dropped.auths, s3));
    [dropped, over, over.(written := over.conf)]
  }

  /** Two ways to lose `uid`, the agent dying before it tells the server: the
      confirmed configuration is put back, if there is one, or the authorization is
      dropped. */
  ghost function Losing(w: World, s3: S3, uid: string): (trace: seq<World>)
    requires s3.endpoint.URL?
    ensures |trace| >= 5 && trace[0] == w
  {
    var l := Loaded(w, s3, uid);
    [w, Put(w, s3, uid), l] + if w.applied != "" then BackFrom(l) else DroppedFrom(l, s3, uid)
  }

  lemma LoadingIsARun(w: World, s3: S3, uid: string)
    requires IsUID(uid) && WellFormed(w.auths, s3)
    ensures Step(w, Put(w, s3, uid), s3) && Step(Put(w, s3, uid), Loaded(w, s3, uid), s3)
    ensures !Safe(w, uid) ==> Serves(Loaded(w, s3, uid), uid)
  {
    SearchIsExact(w.auths, s3, uid);
    assert FileReplaced(w, Put(w, s3, uid), s3) || ServerMoves(w, Put(w, s3, uid));
    assert ServerMoves(Put(w, s3, uid), Loaded(w, s3, uid));
  }

  lemma OneMoreEffect(trace: seq<World>, b: World, w: World, s3: S3, uid: string)
    requires IsRunFrom(trace, w, s3, uid) && WellFormed(b.auths, s3)
    requires var last := trace[|trace| - 1]; Step(last, b, s3) && (HasStanza(b.auths, uid) ==> HasStanza(last.auths, uid))
    ensures IsRunFrom(trace + [b], w, s3, uid)
  {
    var longer := trace + [b];
    forall i | 0 < i < |longer| ensures Step(longer[i - 1], longer[i], s3) {
      if i < |trace| {
        assert longer[i - 1] == trace[i - 1] && longer[i] == trace[i];
      }
    }
    forall i | 0 <= i < |longer| ensures WellFormed(longer[i].auths, s3) {
      if i < |trace| { assert longer[i] == trace[i]; }
    }
    forall i | 0 < i < |longer| ensures !NewlyAuthorized(longer[i - 1], longer[i], uid) {
      if i < |trace| {
        assert longer[i - 1] == trace[i - 1] && longer[i] == trace[i];
      }
    }
  }

  lemma TwoMoreEffects(trace: seq<World>, b: World, c: World, w: World, s3: S3, uid: string)
    requires IsRunFrom(trace, w, s3, uid) && WellFormed(b.auths, s3)
    requires var last := trace[|trace| - 1]; b.auths == c.auths == last.auths && Step(last, b, s3) && Step(b, c, s3)
    ensures IsRunFrom(trace + [b, c], w, s3, uid)
  {
    OneMoreEffect(trace, b, w, s3, uid);
    OneMoreEffect(trace + [b], c, w, s3, uid);
    assert trace + [b] + [c] == trace + [b, c];
  }

  lemma LoadingIsARunFrom(w: World, s3: S3, uid: string)
    requires IsUID(uid) && WellFormed(w.auths, s3)
    ensures IsRunFrom([w, Put(w, s3, uid), Loaded(w, s3, uid)], w, s3, uid)
    ensures !Safe(w, uid) ==> Serves(Loaded(w, s3, uid), uid)
  {
    LoadingIsARun(w, s3, uid);
    TwoMoreEffects([w], Put(w, s3, uid), Loaded(w, s3, uid), w, s3, uid);
    assert [w] + [Put(w, s3, uid), Loaded(w, s3, uid)] == [w, Put(w, s3, uid), Loaded(w, s3, uid)];
  }

  lemma PuttingBackLoses(loading: seq<World>, w: World, s3: S3, uid: string)
    requires IsRunFrom(loading, w, s3, uid)
    requires loading[|loading| - 1].applied != ""
    ensures IsRunFrom(loading + BackFrom(loading[|loading| - 1]), w, s3, uid)
  {
    var l := loading[|loading| - 1];
    PuttingBack(l, s3);
    TwoMoreEffects(loading, BackFrom(l)[0], BackFrom(l)[1], w, s3, uid);
  }

  lemma DroppingLoses(loading: seq<World>, w: World, s3: S3, uid: string)
    requires IsRunFrom(loading, w, s3, uid) && IsUID(uid)
    ensures IsRunFrom(loading + DroppedFrom(loading[|loading| - 1], s3, uid), w, s3, uid)
    ensures !Authorizes(DroppedFrom(loading[|loading| - 1], s3, uid)[2].written, uid)
  {
    var l := loading[|loading| - 1];
    var tail := DroppedFrom(l, s3, uid);
    assert StateSaved(l, tail[0]);
    AFirstConfiguration(tail[0], tail[1].conf, s3);
    SearchIsExact(tail[0].auths, s3, uid);
    OneMoreEffect(loading, tail[0], w, s3, uid);
    TwoMoreEffects(loading + [tail[0]], tail[1], tail[2], w, s3, uid);
    assert loading + [tail[0]] + [tail[1], tail[2]] == loading + tail;
  }

  lemma LosingIsARun(w: World, s3: S3, uid: string)
    requires IsUID(uid) && WellFormed(w.auths, s3)
    ensures IsRunFrom(Losing(w, s3, uid), w, s3, uid)
    ensures !Safe(w, uid) ==>
              var last := Losing(w, s3, uid)[|Losing(w, s3, uid)| - 1];
              Serves(last, uid) && !MayServe(last, uid)
  {
    var loading := [w, Put(w, s3, uid), Loaded(w, s3, uid)];
    LoadingIsARunFrom(w, s3, uid);
    if w.applied != "" {
      PuttingBackLoses(loading, w, s3, uid);
    } else {
      DroppingLoses(loading, w, s3, uid);
      assert !Authorizes("", uid);
    }
  }

  /** The search can be relied on from `w` on if and only if the UID is confirmed,
      or neither served nor in anything a server could load. */
  lemma SearchIsReliableExactlyWhen(w: World, s3: S3, uid: string)
    requires IsUID(uid) && WellFormed(w.auths, s3)
    ensures Reliable(w, s3, uid) <==> Safe(w, uid)
  {
    if Safe(w, uid) {
      forall trace | IsRunFrom(trace, w, s3, uid)
        ensures forall i :: 0 <= i < |trace| && Serves(trace[i], uid) ==> MayServe(trace[i], uid)
      {
        SearchNeverMissesASafeUID(trace, s3, uid);
      }
    } else {
      LosingIsARun(w, s3, uid);
      var trace := Losing(w, s3, uid);
      assert Serves(trace[|trace| - 1], uid);
    }
  }

  /** For an authorized UID that is the confirmed copy's word alone, which a caller
      can read before the call. */
  lemma AuthorizedIsReliableExactlyIfConfirmed(w: World, s3: S3, uid: string)
    requires IsUID(uid) && WellFormed(w.auths, s3) && HasStanza(w.auths, uid)
    ensures Reliable(w, s3, uid) <==> Confirms(w, uid)
  {
    SearchIsReliableExactlyWhen(w, s3, uid);
  }

  /** Why the UID has to be confirmed first. An authorization is recorded,
      written and loaded; the server does not answer, so the previous file is put
      back; the agent dies before the server reloads it. The server serves a UID
      that neither copy holds: once the record is dropped, Revoke and Remaining
      find nothing. */
  ghost function LostAuthorization(s3: S3, uid: string): (trace: seq<World>)
    requires s3.endpoint.URL?
    ensures |trace| == 8
  {
    var none := Render(map[], s3);
    var auths := map[uid := Authorization(["s"], "n")];
    var config := Render(auths, s3);
    var w0 := World("i", map[], none, none, none, Running("i", none, false), {});
    var w1 := w0.(auths := auths);
    var w2 := w1.(conf := config);
    var w3 := w2.(written := config);
    var w4 := w3.(server := Running("i", config, true));
    var w5 := w4.(conf := none);
    var w6 := w5.(written := none);
    var w7 := w6.(auths := map[]);
    [w0, w1, w2, w3, w4, w5, w6, w7]
  }

  lemma AFirstConfiguration(w: World, config: string, s3: S3)
    requires s3.endpoint.URL? && config == Render(w.auths, s3)
    ensures Step(w, w.(conf := config), s3)
    ensures Step(w.(conf := config), w.(conf := config, written := config), s3)
  {
    assert FileReplaced(w, w.(conf := config), s3) && WriteRecorded(w.(conf := config), w.(conf := config, written := config));
  }

  lemma PuttingBack(w: World, s3: S3)
    requires s3.endpoint.URL? && w.applied != ""
    ensures Step(w, w.(conf := w.applied), s3)
    ensures Step(w.(conf := w.applied), w.(conf := w.applied, written := w.applied), s3)
  {
    assert FileReplaced(w, w.(conf := w.applied), s3);
    assert WriteRecorded(w.(conf := w.applied), w.(conf := w.applied, written := w.applied));
  }

  lemma LostAuthorizationIsARun(s3: S3, uid: string)
    requires s3.endpoint.URL?
    ensures IsRun(LostAuthorization(s3, uid), s3)
  {
    var trace := LostAuthorization(s3, uid);
    assert StateSaved(trace[0], trace[1]) && StateSaved(trace[6], trace[7]) && ServerMoves(trace[3], trace[4]);
    AFirstConfiguration(trace[1], trace[2].conf, s3);
    assert Render(map[], s3)[0] == '[';
    PuttingBack(trace[4], s3);
  }

  lemma OneAuthorization(s3: S3, uid: string)
    requires IsUID(uid) && WellFormed(map[], s3)
    ensures !Authorizes(Render(map[], s3), uid)
    ensures Authorizes(Render(map[uid := Authorization(["s"], "n")], s3), uid)
  {
    var auths := map[uid := Authorization(["s"], "n")];
    assert auths[uid].stanzas == ["s"] && AllFree(["s"], '\n');
    SearchIsExact(map[], s3, uid);
    SearchIsExact(auths, s3, uid);
  }

  lemma AnUnconfirmedAuthorizationCanBeLost(s3: S3, uid: string)
    requires IsUID(uid) && WellFormed(map[], s3)
    ensures var trace := LostAuthorization(s3, uid);
            && IsRun(trace, s3)
            && Gone(trace[0], uid)
            && Serves(trace[7], uid) && !MayServe(trace[7], uid) && uid !in trace[7].auths
  {
    LostAuthorizationIsARun(s3, uid);
    OneAuthorization(s3, uid);
  }
}
