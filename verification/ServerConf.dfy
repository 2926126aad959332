/** The repo host's configuration file: rendered from the map of authorizations,
    and searched as text to tell whether it still serves a UID. */
module ServerConf {
  import opened Text

  datatype Authorization = Authorization(stanzas: seq<string>, network: string)

  type Authorizations = map<string, Authorization>

  /** The object store endpoint as `url.Parse` reads it. */
  datatype Endpoint = NotAURL | URL(scheme: string, host: string, hostname: string, port: string)

  datatype S3 = S3(endpoint: Endpoint, bucket: string, region: string, accessKey: string, secretKey: string, caFile: string)

  datatype Rendered = Refused | Config(text: string)

  const SERVER_AUTH := "tls-server-auth"
  const NO_CLIENT_UID := "cara-no-client"
  const NO_CLIENT := NO_CLIENT_UID + "=" + "cara-no-stanza"
  const TLS_DIR := "/etc/cara/pgbackrest/tls"
  const REPOSITORY_PATH := "/cara/v2/pgbackrest"

  function KV(k: string, v: string): string {
    k + "=" + v
  }

  function Join(xs: seq<string>): string {
    if xs == [] then "" else if |xs| == 1 then xs[0] else xs[0] + "," + Join(xs[1..])
  }

  /** Text from lines, each ended by a newline. */
  function Unlines(lines: seq<string>): string {
    if lines == [] then "" else lines[0] + "\n" + Unlines(lines[1..])
  }

  predicate Reachable(s3: S3) {
    s3.endpoint.URL? && s3.endpoint.host != "" && s3.endpoint.scheme == "https"
  }

  /** What one UID contributes; a UID without a stanza contributes nothing. */
  function AuthLine(auth: Authorizations, uid: string): seq<string>
    requires uid in auth
  {
    var stanzas := SortedUnique(auth[uid].stanzas);
    if stanzas == [] then [] else [KV(SERVER_AUTH, uid + "=" + Join(stanzas))]
  }

  function AuthLines(auth: Authorizations, uids: seq<string>): seq<string>
    requires forall uid :: uid in uids ==> uid in auth
  {
    if uids == [] then [] else AuthLines(auth, uids[..|uids| - 1]) + AuthLine(auth, uids[|uids| - 1])
  }

  function OrNoClient(lines: seq<string>): seq<string> {
    if lines == [] then [KV(SERVER_AUTH, NO_CLIENT)] else lines
  }

  function Head(): seq<string> {
    [ KV("tls-server-address", "*"),
      KV("tls-server-ca-file", TLS_DIR + "/ca.crt"),
      KV("tls-server-cert-file", TLS_DIR + "/server.crt"),
      KV("tls-server-key-file", TLS_DIR + "/server.key") ]
  }

  function Repository(s3: S3): seq<string>
    requires s3.endpoint.URL?
  {
    [ KV("repo1-type", "s3"),
      KV("repo1-path", REPOSITORY_PATH),
      KV("repo1-s3-bucket", s3.bucket),
      KV("repo1-s3-endpoint", s3.endpoint.hostname) ]
  }

  function Port(s3: S3): seq<string>
    requires s3.endpoint.URL?
  {
    if s3.endpoint.port == "" then [] else [KV("repo1-storage-port", s3.endpoint.port)]
  }

  function Access(s3: S3): seq<string> {
    [ KV("repo1-s3-region", if s3.region == "" then "us-east-1" else s3.region),
      KV("repo1-s3-key", s3.accessKey),
      KV("repo1-s3-key-secret", s3.secretKey),
      KV("repo1-s3-uri-style", "path") ]
  }

  function CA(s3: S3): seq<string> {
    if s3.caFile == "" then [] else [KV("repo1-storage-ca-file", TLS_DIR + "/s3-ca.crt")]
  }

  function Logging(): seq<string> {
    [ KV("log-level-console", "info"), KV("log-level-file", "off") ]
  }

  function Tail(s3: S3): seq<string>
    requires s3.endpoint.URL?
  {
    Repository(s3) + Port(s3) + Access(s3) + CA(s3) + Logging()
  }

  /** The lines of the configuration of `auth`, listed in the order of `uids`. */
  function ConfigLines(auth: Authorizations, s3: S3, uids: seq<string>): seq<string>
    requires s3.endpoint.URL?
    requires forall uid :: uid in uids ==> uid in auth
  {
    Head() + OrNoClient(AuthLines(auth, uids)) + Tail(s3)
  }

  /** A UID whose authorization names at least one stanza. */
  predicate HasStanza(auth: Authorizations, uid: string) {
    uid in auth && auth[uid].stanzas != []
  }

  // ------------------------------------------------------------- rendering

  lemma {:induction false} UnlinesAppend(a: seq<string>, b: seq<string>)
    ensures Unlines(a + b) == Unlines(a) + Unlines(b)
  {
    if a == [] {
      assert a + b == b;
    } else {
      assert (a + b)[1..] == a[1..] + b;
      UnlinesAppend(a[1..], b);
    }
  }

  /** Renders the configuration. The map is walked in an order that is not
      specified, and the stanzas may repeat. */
  method RenderServerConfig(auth: Authorizations, s3: S3) returns (r: Rendered)
    ensures r.Refused? <==> !Reachable(s3)
    ensures r.Config? ==> r.text == Render(auth, s3)
  {
    if !s3.endpoint.URL? || s3.endpoint.host == "" || s3.endpoint.scheme != "https" {
      return Refused;
    }
    var keys := CollectKeys(auth);
    var uids := SortedUnique(keys);
    SortedUniqueIsSorted(keys);
    MembersOfElements(uids);
    var lines := WriteAuthLines(auth, uids);
    r := Config(Unlines(["[global]"] + (Head() + lines + Tail(s3))));
    SortedListingIsUnique(SortedUIDs(auth), uids);
  }

  /** A line for each UID that has stanzas, and a placeholder if none has. */
  method WriteAuthLines(auth: Authorizations, uids: seq<string>) returns (lines: seq<string>)
    requires forall u :: u in uids ==> u in auth
    ensures lines == OrNoClient(AuthLines(auth, uids))
  {
    lines := [];
    var written := 0;
    for i := 0 to |uids|
      invariant lines == AuthLines(auth, uids[..i])
      invariant written == 0 <==> lines == []
      invariant 0 <= written
    {
      var stanzas := SortedUnique(auth[uids[i]].stanzas);
      assert uids[..i + 1][..i] == uids[..i];
      if stanzas != [] {
        lines := lines + [KV(SERVER_AUTH, uids[i] + "=" + Join(stanzas))];
        written := written + 1;
      }
    }
    assert uids[..|uids|] == uids;
    if written == 0 {
      lines := lines + [KV(SERVER_AUTH, NO_CLIENT)];
    }
  }

  /** The keys of a map, each once, in whatever order. */
  method CollectKeys(auth: Authorizations) returns (keys: seq<string>)
    ensures Elements(keys) == auth.Keys
  {
    keys := [];
    var left := auth.Keys;
    while left != {}
      invariant left <= auth.Keys
      invariant Elements(keys) == auth.Keys - left
      decreases left
    {
      var k :| k in left;
      ElementsOfJoin(keys, [k]);
      assert Elements([k]) == {k};
      keys := keys + [k];
      left := left - {k};
    }
  }

  lemma MembersOfElements(xs: seq<string>)
    ensures forall x :: x in xs <==> x in Elements(xs)
  {
  }

  /** The sorted listing of the UIDs, from any listing of them. */
  ghost function SortedUIDs(auth: Authorizations): (uids: seq<string>)
    ensures StrictlySorted(uids) && Elements(uids) == auth.Keys
    ensures forall uid :: uid in uids ==> uid in auth
  {
    var xs := AnyOrder(auth.Keys);
    SortedUniqueIsSorted(xs);
    MembersOfElements(SortedUnique(xs));
    SortedUnique(xs)
  }

  /** The rendered bytes. */
  ghost function Render(auth: Authorizations, s3: S3): string
    requires s3.endpoint.URL?
  {
    Unlines(["[global]"] + ConfigLines(auth, s3, SortedUIDs(auth)))
  }

  lemma SameStanzasSameLines(a: Authorizations, b: Authorizations, uids: seq<string>)
    requires forall uid :: uid in uids ==> uid in a && uid in b
    requires forall uid :: uid in uids ==> Elements(a[uid].stanzas) == Elements(b[uid].stanzas)
    ensures AuthLines(a, uids) == AuthLines(b, uids)
  {
    if uids != [] {
      var last := uids[|uids| - 1];
      SameStanzasSameLines(a, b, uids[..|uids| - 1]);
      SortedUniqueIsSorted(a[last].stanzas);
      SortedUniqueIsSorted(b[last].stanzas);
      SortedListingIsUnique(SortedUnique(a[last].stanzas), SortedUnique(b[last].stanzas));
    }
  }

  /** Neither the order nor the repetition of stanzas shows in the bytes, nor
      does a network: an unchanged set of permissions never causes a reload. */
  lemma RenderDependsOnPermissionsOnly(a: Authorizations, b: Authorizations, s3: S3)
    requires s3.endpoint.URL?
    requires a.Keys == b.Keys
    requires forall uid :: uid in a ==> Elements(a[uid].stanzas) == Elements(b[uid].stanzas)
    ensures Render(a, s3) == Render(b, s3)
  {
    SortedListingIsUnique(SortedUIDs(a), SortedUIDs(b));
    SameStanzasSameLines(a, b, SortedUIDs(a));
  }

  // ------------------------------------------------- searching the rendering

  /** The text search of `servesUID`. */
  predicate Authorizes(text: string, uid: string) {
    Contains(text, "\n" + Mark(uid))
  }

  function Mark(uid: string): string {
    KV(SERVER_AUTH, uid + "=")
  }

  predicate AllFree(lines: seq<string>, c: char) {
    forall i :: 0 <= i < |lines| ==> Free(lines[i], c)
  }

  predicate SomeLineStarts(lines: seq<string>, p: string) {
    exists k :: 0 <= k < |lines| && p <= lines[k]
  }

  /** A newline and a pattern without one are found in a text exactly when the
      pattern starts some line after the first. */
  lemma {:induction false} SearchFindsLineStarts(first: string, rest: seq<string>, p: string)
    requires Free(first, '\n') && AllFree(rest, '\n') && Free(p, '\n') && p != ""
    ensures Contains(first + "\n" + Unlines(rest), "\n" + p) <==> SomeLineStarts(rest, p)
    decreases |rest|
  {
    var text := first + "\n" + Unlines(rest);
    var pat := "\n" + p;
    if Contains(text, pat) {
      var i :| 0 <= i <= |text| - |pat| && OccursAt(text, pat, i);
      OccurrenceIsALineStart(first, rest, p, i);
    }
    if SomeLineStarts(rest, p) {
      var k :| 0 <= k < |rest| && p <= rest[k];
      var j := LineStartOccurs(first, rest, p, k);
      assert OccursAt(text, pat, j);
    }
  }

  lemma StaysInLine(p: string, line: string, more: string)
    requires p <= line + "\n" + more
    ensures p <= line || '\n' in p
  {
    var text := line + "\n" + more;
    if |p| <= |line| {
      assert forall i :: 0 <= i < |p| ==> p[i] == text[i] == line[i];
    } else {
      assert p[|line|] == text[|line|] == '\n';
    }
  }

  lemma {:induction false} OccurrenceIsALineStart(first: string, rest: seq<string>, p: string, i: nat)
    requires Free(first, '\n') && AllFree(rest, '\n') && Free(p, '\n') && p != ""
    requires OccursAt(first + "\n" + Unlines(rest), "\n" + p, i)
    ensures SomeLineStarts(rest, p)
    decreases |rest|
  {
    var text := first + "\n" + Unlines(rest);
    var pat := "\n" + p;
    assert text[i] == text[i..i + |pat|][0] == '\n';
    assert i >= |first|;
    var body := Unlines(rest);
    assert text[|first| + 1..] == body;
    if i == |first| {
      assert forall j :: 0 <= j < |p| ==> body[j] == text[i..i + |pat|][j + 1] == p[j];
      assert body == rest[0] + "\n" + Unlines(rest[1..]);
      StaysInLine(p, rest[0], Unlines(rest[1..]));
    } else {
      var j := i - |first| - 1;
      assert body[j..j + |pat|] == text[i..i + |pat|];
      assert rest != [] && body == rest[0] + "\n" + Unlines(rest[1..]);
      OccurrenceIsALineStart(rest[0], rest[1..], p, j);
      var k :| 0 <= k < |rest[1..]| && p <= rest[1..][k];
      assert p <= rest[k + 1];
    }
  }

  lemma PrefixFollows(first: string, line: string, tail: string, p: string)
    requires p <= line
    ensures OccursAt(first + "\n" + (line + "\n" + tail), "\n" + p, |first|)
  {
    var text := first + "\n" + (line + "\n" + tail);
    assert text[|first|..|first| + |p| + 1] == "\n" + line[..|p|];
  }

  lemma OccursLater(before: string, text: string, p: string, j: nat)
    requires OccursAt(text, p, j)
    ensures OccursAt(before + text, p, |before| + j)
  {
    assert (before + text)[|before| + j..|before| + j + |p|] == text[j..j + |p|];
  }

  lemma {:induction false} LineStartOccurs(first: string, rest: seq<string>, p: string, k: nat) returns (j: nat)
    requires k < |rest| && p <= rest[k]
    ensures OccursAt(first + "\n" + Unlines(rest), "\n" + p, j)
    decreases |rest|
  {
    assert Unlines(rest) == rest[0] + "\n" + Unlines(rest[1..]);
    if k == 0 {
      j := |first|;
      PrefixFollows(first, rest[0], Unlines(rest[1..]), p);
    } else {
      var j' := LineStartOccurs(rest[0], rest[1..], p, k - 1);
      j := |first| + 1 + j';
      OccursLater(first + "\n", Unlines(rest), "\n" + p, j');
    }
  }

  /** No value holds a newline. */
  predicate OneLine(auth: Authorizations, s3: S3) {
    && s3.endpoint.URL?
    && (forall uid :: uid in auth ==> Free(uid, '\n') && AllFree(auth[uid].stanzas, '\n'))
    && Free(s3.bucket, '\n') && Free(s3.region, '\n') && Free(s3.accessKey, '\n') && Free(s3.secretKey, '\n')
    && Free(s3.endpoint.hostname, '\n') && Free(s3.endpoint.port, '\n')
  }

  /** ... and no UID a '=', as no UUID does. */
  predicate WellFormed(auth: Authorizations, s3: S3) {
    OneLine(auth, s3) && forall uid :: uid in auth ==> Free(uid, '=')
  }

  ghost predicate SomeStanza(auth: Authorizations) {
    exists uid :: HasStanza(auth, uid)
  }

  lemma {:induction false} JoinIsFree(xs: seq<string>)
    requires AllFree(xs, '\n')
    ensures Free(Join(xs), '\n')
  {
    if |xs| > 1 { JoinIsFree(xs[1..]); }
  }

  /** `uid` is taken for `other`: it is that, or all of it before one of its '='. */
  predicate TakenFor(uid: string, other: string) {
    uid == other || uid + "=" <= other
  }

  lemma EndedPrefix(a: string, b: string, tail: string)
    requires Free(a, '=')
    ensures a + "=" <= b + "=" + tail <==> TakenFor(a, b)
  {
    var long := b + "=" + tail;
    if a + "=" <= long {
      assert forall i :: 0 <= i < |a| ==> a[i] == (a + "=")[i] == long[i];
      assert (a + "=")[|a|] == long[|a|] == '=';
      assert long[|b|] == '=';
      if |a| < |b| {
        assert forall i :: 0 <= i < |a| + 1 ==> (a + "=")[i] == long[i] == b[i];
      } else {
        assert a == b;
      }
    }
    if a == b {
      assert long[..|a| + 1] == a + "=";
    }
  }

  lemma SamePrefix(common: string, a: string, b: string)
    ensures common + a <= common + b <==> a <= b
  {
    assert (common + a)[|common|..] == a && (common + b)[|common|..] == b;
    if common + a <= common + b {
      assert forall i :: 0 <= i < |a| ==> a[i] == (common + a)[|common| + i] == b[i];
    }
  }

  lemma MarkStartsExactly(uid: string, other: string, stanzas: string)
    requires Free(uid, '=')
    ensures Mark(uid) <= KV(SERVER_AUTH, other + "=" + stanzas) <==> TakenFor(uid, other)
  {
    SamePrefix(SERVER_AUTH + "=", uid + "=", other + "=" + stanzas);
    EndedPrefix(uid, other, stanzas);
  }

  lemma AuthLineStarts(auth: Authorizations, s3: S3, last: string, uid: string)
    requires OneLine(auth, s3) && last in auth && Free(uid, '=')
    ensures AllFree(AuthLine(auth, last), '\n')
    ensures SomeLineStarts(AuthLine(auth, last), Mark(uid)) <==> TakenFor(uid, last) && HasStanza(auth, last)
    ensures AuthLine(auth, last) != [] <==> HasStanza(auth, last)
  {
    var stanzas := SortedUnique(auth[last].stanzas);
    MembersOfElements(stanzas);
    MembersOfElements(auth[last].stanzas);
    assert forall i :: 0 <= i < |stanzas| ==> stanzas[i] in auth[last].stanzas;
    JoinIsFree(stanzas);
    MarkStartsExactly(uid, last, Join(stanzas));
    StartsInOne(KV(SERVER_AUTH, last + "=" + Join(stanzas)), Mark(uid));
    assert stanzas == [] <==> auth[last].stanzas == [];
  }

  lemma {:induction false} AuthLinesStart(auth: Authorizations, s3: S3, uids: seq<string>, uid: string)
    requires OneLine(auth, s3) && Free(uid, '=')
    requires forall u :: u in uids ==> u in auth
    ensures AllFree(AuthLines(auth, uids), '\n')
    ensures SomeLineStarts(AuthLines(auth, uids), Mark(uid)) <==>
            exists u :: u in uids && TakenFor(uid, u) && HasStanza(auth, u)
    ensures AuthLines(auth, uids) != [] <==> exists u :: u in uids && HasStanza(auth, u)
  {
    if uids != [] {
      var last := uids[|uids| - 1];
      var front := uids[..|uids| - 1];
      assert uids == front + [last];
      AuthLinesStart(auth, s3, front, uid);
      AuthLineStarts(auth, s3, last, uid);
      StartsInJoin(AuthLines(auth, front), AuthLine(auth, last), Mark(uid));
    }
  }

  lemma StartsInJoin(a: seq<string>, b: seq<string>, p: string)
    ensures SomeLineStarts(a + b, p) <==> SomeLineStarts(a, p) || SomeLineStarts(b, p)
  {
    if SomeLineStarts(a, p) {
      var k :| 0 <= k < |a| && p <= a[k];
      assert p <= (a + b)[k];
    }
    if SomeLineStarts(b, p) {
      var k :| 0 <= k < |b| && p <= b[k];
      assert p <= (a + b)[|a| + k];
    }
  }

  lemma StartsInOne(line: string, p: string)
    ensures SomeLineStarts([line], p) <==> p <= line
    ensures !SomeLineStarts([], p)
  {
    if p <= line {
      assert p <= [line][0];
    }
  }

  /** A line of another option does not start as an authorization does. */
  predicate OtherOption(line: string) {
    exists j :: 0 <= j < |SERVER_AUTH| && j < |line| && line[j] != SERVER_AUTH[j]
  }

  lemma OtherOptionsDoNotStart(lines: seq<string>, uid: string)
    requires forall i :: 0 <= i < |lines| ==> OtherOption(lines[i])
    ensures !SomeLineStarts(lines, Mark(uid))
  {
  }

  predicate PlainLine(line: string) {
    OtherOption(line) && Free(line, '\n')
  }

  /** Lines of other options, each in one line. */
  predicate Plain(lines: seq<string>) {
    forall i :: 0 <= i < |lines| ==> PlainLine(lines[i])
  }

  lemma OtherKey(k: string, v: string, j: nat)
    requires j < |k| && j < |SERVER_AUTH| && k[j] != SERVER_AUTH[j]
    requires Free(k, '\n') && Free(v, '\n')
    ensures PlainLine(KV(k, v))
  {
  }

  lemma OtherFile(k: string, file: string)
    requires |k| > 11 && k[11] != SERVER_AUTH[11] && Free(k, '\n') && Free(file, '\n')
    ensures PlainLine(KV(k, TLS_DIR + file))
  {
    OtherKey(k, TLS_DIR + file, 11);
  }

  lemma HeadIsPlain()
    ensures Plain(Head())
  {
    OtherKey("tls-server-address", "*", 12);
    OtherFile("tls-server-ca-file", "/ca.crt");
    OtherFile("tls-server-cert-file", "/server.crt");
    OtherFile("tls-server-key-file", "/server.key");
  }

  lemma RepositoryIsPlain(s3: S3)
    requires OneLine(map[], s3)
    ensures Plain(Repository(s3)) && Plain(Port(s3))
  {
    OtherKey("repo1-type", "s3", 0);
    OtherKey("repo1-path", REPOSITORY_PATH, 0);
    OtherKey("repo1-s3-bucket", s3.bucket, 0);
    OtherKey("repo1-s3-endpoint", s3.endpoint.hostname, 0);
    OtherKey("repo1-storage-port", s3.endpoint.port, 0);
  }

  lemma AccessIsPlain(s3: S3)
    requires OneLine(map[], s3)
    ensures Plain(Access(s3))
  {
    OtherKey("repo1-s3-region", if s3.region == "" then "us-east-1" else s3.region, 0);
    OtherKey("repo1-s3-key", s3.accessKey, 0);
    OtherKey("repo1-s3-key-secret", s3.secretKey, 0);
    OtherKey("repo1-s3-uri-style", "path", 0);
  }

  lemma LoggingIsPlain(s3: S3)
    ensures Plain(CA(s3)) && Plain(Logging())
  {
    OtherKey("repo1-storage-ca-file", TLS_DIR + "/s3-ca.crt", 0);
    OtherKey("log-level-console", "info", 0);
    OtherKey("log-level-file", "off", 0);
  }

  lemma TailIsPlain(s3: S3)
    requires OneLine(map[], s3)
    ensures Plain(Tail(s3))
  {
    RepositoryIsPlain(s3);
    AccessIsPlain(s3);
    LoggingIsPlain(s3);
  }

  lemma OnlyAuthLinesStart(auth: Authorizations, s3: S3, uids: seq<string>, uid: string)
    requires OneLine(auth, s3)
    requires forall u :: u in uids ==> u in auth
    ensures SomeLineStarts(ConfigLines(auth, s3, uids), Mark(uid))
       <==> SomeLineStarts(OrNoClient(AuthLines(auth, uids)), Mark(uid))
  {
    HeadIsPlain();
    TailIsPlain(s3);
    OtherOptionsDoNotStart(Head(), uid);
    OtherOptionsDoNotStart(Tail(s3), uid);
    var lines := OrNoClient(AuthLines(auth, uids));
    StartsInJoin(Head() + lines, Tail(s3), Mark(uid));
    StartsInJoin(Head(), lines, Mark(uid));
  }

  lemma {:induction false} ConfigIsOneLineEach(auth: Authorizations, s3: S3, uids: seq<string>)
    requires OneLine(auth, s3)
    requires forall u :: u in uids ==> u in auth
    ensures AllFree(ConfigLines(auth, s3, uids), '\n')
  {
    HeadIsPlain();
    TailIsPlain(s3);
    AuthLinesStart(auth, s3, uids, "");
  }

  /** What the text search finds in the configuration rendered from `auth`, for a
      UID without '=': itself or one it is taken for, with a stanza, or the
      placeholder written when there is none. */
  lemma SearchFinds(auth: Authorizations, s3: S3, uid: string)
    requires OneLine(auth, s3) && Free(uid, '=') && Free(uid, '\n')
    ensures Authorizes(Render(auth, s3), uid) <==>
            (exists u :: HasStanza(auth, u) && TakenFor(uid, u)) || (TakenFor(uid, NO_CLIENT_UID) && !SomeStanza(auth))
  {
    var uids := SortedUIDs(auth);
    MembersOfElements(uids);
    var lines := AuthLines(auth, uids);
    var config := ConfigLines(auth, s3, uids);
    ConfigIsOneLineEach(auth, s3, uids);
    assert (["[global]"] + config)[1..] == config;
    assert Render(auth, s3) == "[global]" + "\n" + Unlines(config);
    SearchFindsLineStarts("[global]", config, Mark(uid));
    OnlyAuthLinesStart(auth, s3, uids, uid);
    AuthLinesStart(auth, s3, uids, uid);
    NoClientLine(uid);
  }

  /** Where no UID holds a '=', the search is exact: a UID is found if and only if
      it is authorized for at least one stanza, or it is the placeholder. */
  lemma SearchIsExact(auth: Authorizations, s3: S3, uid: string)
    requires WellFormed(auth, s3) && Free(uid, '=') && Free(uid, '\n')
    ensures Authorizes(Render(auth, s3), uid) <==>
            HasStanza(auth, uid) || (uid == NO_CLIENT_UID && !SomeStanza(auth))
  {
    SearchFinds(auth, s3, uid);
    forall other | Free(other, '=') ensures TakenFor(uid, other) <==> uid == other {
      TakenForItself(uid, other);
    }
  }

  lemma TakenForItself(uid: string, other: string)
    requires Free(other, '=')
    ensures TakenFor(uid, other) <==> uid == other
  {
    PrefixHoldsTheSign(uid, other);
  }

  lemma PrefixHoldsTheSign(uid: string, other: string)
    ensures uid + "=" <= other ==> '=' in other
  {
    if uid + "=" <= other {
      assert other[|uid|] == (uid + "=")[|uid|] == '=';
    }
  }

  /** In general, the search is right about a UID if and only if it has a stanza, or
      no UID with one begins with it and a '='. */
  lemma SearchIsRightExactlyWhen(auth: Authorizations, s3: S3, uid: string)
    requires OneLine(auth, s3) && Free(uid, '=') && Free(uid, '\n') && uid != NO_CLIENT_UID
    ensures (Authorizes(Render(auth, s3), uid) <==> HasStanza(auth, uid)) <==>
            (HasStanza(auth, uid) || !exists u :: HasStanza(auth, u) && uid + "=" <= u)
  {
    SearchFinds(auth, s3, uid);
    TakenForItself(uid, NO_CLIENT_UID);
  }

  lemma NoClientLine(uid: string)
    requires Free(uid, '=')
    ensures SomeLineStarts([KV(SERVER_AUTH, NO_CLIENT)], Mark(uid)) <==> TakenFor(uid, NO_CLIENT_UID)
  {
    MarkStartsExactly(uid, NO_CLIENT_UID, "cara-no-stanza");
    StartsInOne(KV(SERVER_AUTH, NO_CLIENT), Mark(uid));
  }

  /** The '=' matters: a UID holding one is found under the part before it. */
  lemma EqualsSignIsMistaken(s3: S3)
    requires OneLine(map[], s3)
    ensures var auth := map["a=b" := Authorization(["s"], "n")];
            Authorizes(Render(auth, s3), "a") && !HasStanza(auth, "a")
  {
    var auth := map["a=b" := Authorization(["s"], "n")];
    assert HasStanza(auth, "a=b") && "a" + "=" <= "a=b";
    SearchFinds(auth, s3, "a");
  }
}
