/** The flow record stored under a secret (server.py, `create`, `_info`), and
    its JSON-object view. */
module Records {
  import opened Wrappers

  /** The two state flags a flow can raise. */
  datatype Flag = Registered | Redirected

  /** The JSON field name of a flag, which is also the pub/sub message naming it. */
  function FlagName(f: Flag): string {
    match f
    case Registered => "registered"
    case Redirected => "redirected"
  }

  /** The field names `create` writes itself; a plugin param of one of these names is overridden. */
  const BASE_NAMES: set<string> := {"service", "registered", "redirected", "final_redirect_url"}

  /** One authorisation flow: the owning service, the two flags, the optional
      final redirect URL and the params the service plugin produced. */
  datatype Record = Record(
    service: string,
    registered: bool,
    redirected: bool,
    finalRedirectUrl: Option<string>,
    params: map<string, string>)

  /** The plugin params never shadow a base field. */
  predicate WellFormed(r: Record) {
    r.params.Keys !! BASE_NAMES
  }

  function FlagOf(r: Record, f: Flag): bool {
    match f
    case Registered => r.registered
    case Redirected => r.redirected
  }

  /** A JSON value as stored in a record. */
  datatype Json = JStr(str: string) | JBool(b: bool)

  function StrDict(m: map<string, string>): (d: map<string, Json>)
    ensures d.Keys == m.Keys
  {
    map k | k in m :: JStr(m[k])
  }

  /** The fields of the JSON object that `create` writes itself. */
  function BaseDict(r: Record): (d: map<string, Json>)
    ensures d.Keys <= BASE_NAMES
  {
    var flags := map["service" := JStr(r.service), "registered" := JBool(r.registered),
                     "redirected" := JBool(r.redirected)];
    match r.finalRedirectUrl
    case Some(u) => flags["final_redirect_url" := JStr(u)]
    case None => flags
  }

  /** The record as the JSON object the source stores and returns. */
  function ToDict(r: Record): map<string, Json> {
    StrDict(r.params) + BaseDict(r)
  }

  /** `base_info` of `create`: the service name, both flags false, and the
      body's `final_redirect_url` when it has one. */
  function BaseInfo(name: string, body: map<string, string>): map<string, Json> {
    var flags := map["service" := JStr(name), "registered" := JBool(false), "redirected" := JBool(false)];
    if "final_redirect_url" in body then flags["final_redirect_url" := JStr(body["final_redirect_url"])]
    else flags
  }

  /** The record `create` stores: plugin params overlaid with the base fields. */
  function Build(name: string, body: map<string, string>, plugin: map<string, string>): (r: Record)
    ensures WellFormed(r)
    ensures r.service == name && !r.registered && !r.redirected
    ensures "final_redirect_url" in body ==> r.finalRedirectUrl == Some(body["final_redirect_url"])
    ensures "final_redirect_url" !in body && "final_redirect_url" !in plugin ==> r.finalRedirectUrl == None
    ensures forall k :: k in r.params <==> k in plugin && k !in BASE_NAMES
    ensures forall k :: k in r.params ==> r.params[k] == plugin[k]
  {
    var url :=
      if "final_redirect_url" in body then Some(body["final_redirect_url"])
      else if "final_redirect_url" in plugin then Some(plugin["final_redirect_url"])
      else None;
    Record(name, false, false, url, map k | k in plugin && k !in BASE_NAMES :: plugin[k])
  }

  /** `Build` is the source's dict overlay `plugin.copy().update(base_info)`:
      base fields override any plugin field of the same name. */
  lemma BuildIsOverlay(name: string, body: map<string, string>, plugin: map<string, string>)
    ensures ToDict(Build(name, body, plugin)) == StrDict(plugin) + BaseInfo(name, body)
  {
  }

  /** An update as passed to `_info`: a value for some of the flags. */
  type Update = map<Flag, bool>

  function UpdateDict(upd: Update): (d: map<string, Json>)
    ensures d.Keys <= BASE_NAMES
  {
    var reg: map<string, Json> :=
      if Registered in upd then map["registered" := JBool(upd[Registered])] else map[];
    var red: map<string, Json> :=
      if Redirected in upd then map["redirected" := JBool(upd[Redirected])] else map[];
    reg + red
  }

  /** `parsed_info.update(updated_with)`: the flags named in `upd` take their
      new value; everything else is kept. */
  function Merge(r: Record, upd: Update): (r': Record)
    ensures forall f :: f in upd ==> FlagOf(r', f) == upd[f]
    ensures forall f :: f !in upd ==> FlagOf(r', f) == FlagOf(r, f)
    ensures r'.service == r.service && r'.finalRedirectUrl == r.finalRedirectUrl && r'.params == r.params
  {
    r.(registered := if Registered in upd then upd[Registered] else r.registered,
       redirected := if Redirected in upd then upd[Redirected] else r.redirected)
  }

  /** `Merge` agrees with a dict update of the record's JSON view. */
  lemma MergeIsDictUpdate(r: Record, upd: Update)
    ensures ToDict(Merge(r, upd)) == ToDict(r) + UpdateDict(upd)
  {
    MergeBase(r, upd);
    UnionAssociative(StrDict(r.params), BaseDict(r), UpdateDict(upd));
  }

  lemma MergeBase(r: Record, upd: Update)
    ensures BaseDict(Merge(r, upd)) == BaseDict(r) + UpdateDict(upd)
  {
    var a := BaseDict(Merge(r, upd));
    var b := BaseDict(r) + UpdateDict(upd);
    assert a.Keys == b.Keys;
    forall k | k in a
      ensures a[k] == b[k]
    {
      if k == "registered" {
        assert a[k] == JBool(Merge(r, upd).registered);
      } else if k == "redirected" {
        assert a[k] == JBool(Merge(r, upd).redirected);
      }
    }
  }

  lemma UnionAssociative<K, V>(a: map<K, V>, b: map<K, V>, c: map<K, V>)
    ensures (a + b) + c == a + (b + c)
  {
  }

  /** Applying the same update twice has the effect of applying it once. */
  lemma MergeIdempotent(r: Record, upd: Update)
    ensures Merge(Merge(r, upd), upd) == Merge(r, upd)
  {
  }
}
