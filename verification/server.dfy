/** The flow state machine of server.py: `_info`, `create`, `redirect`,
    `register` and `fetch_info`, each as a pure function from the store (and
    the logical clock) to a response and the store after its one transaction. */
module Server {
  import opened Wrappers
  import opened Codes
  import opened Records
  import opened Store
  import Pocket

  /** Environment settings: `KEY_TTL`, `SERVER_URL` and `FINAL_REDIRECT_URL`. */
  datatype Config = Config(keyTtl: int, serverUrl: string, finalRedirectUrl: Option<string>)

  /** The settings used when the environment names none. */
  const DEFAULT_CONFIG: Config := Config(300, "http://localhost:8080", None)

  /** The page `register` answers with when there is no final URL to redirect to. */
  const SUCCESS_PAGE: string := "<!DOCTYPE html> <html> <body><h1>Ok</h1></body> </html>"

  /** Number of waits `fetch_info` performs at most before its final read. */
  const MAX_WAITS: nat := 10

  datatype Error =
    | NotFound                              // 404: code or secret absent or expired
    | UnknownService(name: Option<string>)  // 400 from `create`: no such plugin
    | ServiceUnavailable(service: string)   // 400 from `redirect`: the record's plugin is gone
    | BadRecord                             // the value under a secret is not a JSON record

  /** The registered service plugins (`SERVICES`). */
  datatype Service = PocketService

  /** `SERVICES.get(name)`. */
  function LookupService(name: Option<string>): (s: Option<Service>)
    ensures s.Some? <==> name == Some("pocket")
  {
    if name == Some("pocket") then Some(PocketService) else None
  }

  function ParseCreation(s: Service, body: map<string, string>, qs: map<string, string>): map<string, string> {
    match s
    case PocketService => Pocket.ParseCreation(body, qs)
  }

  /** The plugin's `redirect_url(info, redirect_uri)`. The plugin reads only
      non-base fields of the record, which are its params. */
  function ServiceRedirectUrl(s: Service, rec: Record, uri: string): string {
    match s
    case PocketService => Pocket.RedirectUrl(rec.params, uri)
  }

  /** The result of a successful `_info`: the record it returns and the store after its write. */
  datatype Read = Read(rec: Record, store: Store)

  /** `_info(redis, secret, updated_with)`: reads the record under `secret`,
      merges `upd` into it and, when `upd` is non-empty, writes it back with a
      fresh expiry in one transaction. */
  function Info(st: Store, now: int, ttl: int, secret: string, upd: Update): (r: Result<Read, Error>)
    ensures Get(st, now, secret).None? ==> r == Err(NotFound)
    ensures r.Ok? <==> Get(st, now, secret).Some? && Get(st, now, secret).value.Blob?
    ensures r.Ok? ==> r.value.rec == Merge(st[secret].value.rec, upd)
    ensures r.Ok? && |upd| == 0 ==> r.value.store == st
    ensures r.Ok? && |upd| > 0 ==>
              && secret in r.value.store
              && r.value.store[secret] == Entry(Blob(r.value.rec), now + ttl)
              && UnchangedExcept(st, r.value.store, {secret})
  {
    match Get(st, now, secret)
    case None => Err(NotFound)
    case Some(Pointer(p)) => if p == "" then Err(NotFound) else Err(BadRecord)
    case Some(Blob(rec)) =>
      var info := Merge(rec, upd);
      if |upd| == 0 then Ok(Read(info, st))
      else Ok(Read(info, SetEx(st, now, ttl, secret, Blob(info))))
  }

  /** `_info(redis, secret)` with no update: a read that writes nothing. */
  function ReadRecord(st: Store, now: int, secret: string): (r: Result<Record, Error>)
    ensures r.Ok? <==> Get(st, now, secret).Some? && Get(st, now, secret).value.Blob?
    ensures r.Ok? ==> r.value == st[secret].value.rec
  {
    match Info(st, now, 0, secret, map[])
    case Ok(read) => Ok(read.rec)
    case Err(e) => Err(e)
  }

  /** What `create` answers with. */
  datatype Created = Created(key: string, url: string, secret: string)

  datatype CreateReply = CreateReply(created: Created, store: Store)

  /** `body.get('service')`. */
  function ServiceName(body: map<string, string>): Option<string> {
    if "service" in body then Some(body["service"]) else None
  }

  /** `create`: with a known service, stores a fresh record under a new secret
      and a pointer to it under the code (explicit `key` upper-cased, else
      generated), both expiring `keyTtl` ticks from now. The generated code and
      secret are inputs: they stand for the two `_code` calls. */
  function Create(cfg: Config, st: Store, now: int, body: map<string, string>, qs: map<string, string>,
                  mintedKey: string, mintedSecret: string): (r: Result<CreateReply, Error>)
    requires |mintedKey| == CODE_LENGTH && OverAlphabet(mintedKey)
    requires |mintedSecret| == SECRET_LENGTH && OverAlphabet(mintedSecret)
    ensures r.Err? <==> ServiceName(body) != Some("pocket")
    ensures r.Err? ==> r.error == UnknownService(ServiceName(body))
    ensures r.Ok? ==>
              var c := r.value.created;
              var st' := r.value.store;
              && c.secret == mintedSecret
              && ("key" !in body ==> c.key == mintedKey)
              && ("key" in body ==> c.key == Upper(body["key"]))
              && c.url == cfg.serverUrl + "/" + Lower(c.key)
              && c.key in st' && st'[c.key].expiry == now + cfg.keyTtl
              && (c.key != c.secret ==> st'[c.key].value == Pointer(c.secret))
              && c.secret in st' && st'[c.secret].expiry == now + cfg.keyTtl
              && st'[c.secret].value.Blob?
              && UnchangedExcept(st, st', {c.key, c.secret})
    ensures r.Ok? ==>
              var rec := r.value.store[r.value.created.secret].value.rec;
              && WellFormed(rec)
              && rec.service == "pocket" && !rec.registered && !rec.redirected
              && rec.params == map["token" := if "token" in body then body["token"] else ""]
              && (rec.finalRedirectUrl.Some? <==> "final_redirect_url" in body)
              && ("final_redirect_url" in body ==> rec.finalRedirectUrl == Some(body["final_redirect_url"]))
  {
    var name := ServiceName(body);
    match LookupService(name)
    case None => Err(UnknownService(name))
    case Some(service) =>
      var key := if "key" in body then Upper(body["key"]) else mintedKey;
      var info := Build(name.value, body, ParseCreation(service, body, qs));
      var st1 := SetEx(st, now, cfg.keyTtl, key, Pointer(mintedSecret));
      var st2 := SetEx(st1, now, cfg.keyTtl, mintedSecret, Blob(info));
      Ok(CreateReply(Created(key, cfg.serverUrl + "/" + Lower(key), mintedSecret), st2))
  }

  /** `redis.get(_normalise(key))`: the secret a code points to. An absent or
      expired code, or an empty pointer, is not found. A record blob found
      under a code is treated as not found as well. */
  function ResolveCode(st: Store, now: int, key: string): (r: Result<string, Error>)
    ensures r.Ok? <==> Get(st, now, Normalise(key)).Some? && Get(st, now, Normalise(key)).value.Pointer?
                       && st[Normalise(key)].value.target != ""
    ensures r.Ok? ==> r.value == st[Normalise(key)].value.target
    ensures r.Err? ==> r.error == NotFound
  {
    match Get(st, now, Normalise(key))
    case Some(Pointer(secret)) => if secret == "" then Err(NotFound) else Ok(secret)
    case _ => Err(NotFound)
  }

  /** A code resolves the same however its letters are cased. */
  lemma ResolveCaseInsensitive(st: Store, now: int, a: string, b: string)
    requires Lower(a) == Lower(b)
    ensures ResolveCode(st, now, a) == ResolveCode(st, now, b)
  {
    NormaliseCaseInsensitive(a, b);
  }

  /** A successful transition: the secret the code resolved to, the updated record, the store after the write. */
  datatype Moved = Moved(secret: string, rec: Record, store: Store)

  /** The store part of `redirect` and `register`: resolve the code, then raise
      flag `f` on its record through `_info`. The secret's expiry is reset; the
      code pointer's is not. */
  function Transition(cfg: Config, st: Store, now: int, key: string, f: Flag): (r: Result<Moved, Error>)
    ensures ResolveCode(st, now, key).Err? ==> r == Err(NotFound)
    ensures r.Ok? <==> && ResolveCode(st, now, key).Ok?
                       && Get(st, now, ResolveCode(st, now, key).value).Some?
                       && Get(st, now, ResolveCode(st, now, key).value).value.Blob?
    ensures r.Err? ==> r.error == NotFound || r.error == BadRecord
    ensures r.Ok? ==>
              var m := r.value;
              && ResolveCode(st, now, key) == Ok(m.secret)
              && Get(st, now, m.secret).Some? && Get(st, now, m.secret).value.Blob?
              && FlagOf(m.rec, f)
              && (forall g :: g != f ==> FlagOf(m.rec, g) == FlagOf(st[m.secret].value.rec, g))
              && m.rec.service == st[m.secret].value.rec.service
              && m.rec.finalRedirectUrl == st[m.secret].value.rec.finalRedirectUrl
              && m.rec.params == st[m.secret].value.rec.params
              && m.secret in m.store && m.store[m.secret] == Entry(Blob(m.rec), now + cfg.keyTtl)
              && UnchangedExcept(st, m.store, {m.secret})
  {
    match ResolveCode(st, now, key)
    case Err(e) => Err(e)
    case Ok(secret) =>
      match Info(st, now, cfg.keyTtl, secret, map[f := true])
      case Err(e) => Err(e)
      case Ok(read) => Ok(Moved(secret, read.rec, read.store))
  }

  /** An HTTP answer: a redirect, an HTML page, or an error. */
  datatype Response = Found(location: string) | Page(html: string) | Failed(error: Error)

  /** A pub/sub message published on a secret's channel. */
  datatype Message = Message(channel: string, text: string)

  /** The effect of a request: the store after it, what it published, what it answered. */
  datatype Outcome = Outcome(store: Store, published: seq<Message>, response: Response)

  /** `redirect`: raises `redirected`, publishes it on the secret's channel and
      sends the caller to the plugin's authorisation URL, whose callback is the
      quoted registration URL for the code as typed. `quote` stands for
      `urllib.parse.quote`. */
  function Redirect(cfg: Config, quote: string -> string, st: Store, now: int, key: string): (o: Outcome)
    ensures Transition(cfg, st, now, key, Redirected).Err? ==>
              o == Outcome(st, [], Failed(Transition(cfg, st, now, key, Redirected).error))
    ensures Transition(cfg, st, now, key, Redirected).Ok? ==>
              var m := Transition(cfg, st, now, key, Redirected).value;
              && o.store == m.store
              && o.published == [Message(m.secret, "redirected")]
              && (m.rec.service == "pocket" ==>
                    o.response == Found(Pocket.RedirectUrl(m.rec.params, quote(cfg.serverUrl + "/register/" + key))))
              && (m.rec.service != "pocket" ==> o.response == Failed(ServiceUnavailable(m.rec.service)))
  {
    match Transition(cfg, st, now, key, Redirected)
    case Err(e) => Outcome(st, [], Failed(e))
    case Ok(m) =>
      var published := [Message(m.secret, FlagName(Redirected))];
      match LookupService(Some(m.rec.service))
      case None => Outcome(m.store, published, Failed(ServiceUnavailable(m.rec.service)))
      case Some(service) =>
        var uri := quote(cfg.serverUrl + "/register/" + key);
        Outcome(m.store, published, Found(ServiceRedirectUrl(service, m.rec, uri)))
  }

  /** With the default settings (`FINAL_REDIRECT_URL` unset), a record
      without its own final URL gets the success page. */
  lemma DefaultFinalTarget(rec: Record)
    requires rec.finalRedirectUrl.None?
    ensures FinalTarget(rec, DEFAULT_CONFIG.finalRedirectUrl) == Page(SUCCESS_PAGE)
  {
  }

  /** Where `register` sends the caller: the record's final URL when that field
      is present (even if empty), else the process default; a non-empty choice
      is redirected to, anything else gets the success page. */
  function FinalTarget(rec: Record, default: Option<string>): (resp: Response)
    ensures resp.Found? || resp == Page(SUCCESS_PAGE)
    ensures rec.finalRedirectUrl.Some? ==>
              (resp.Found? <==> rec.finalRedirectUrl.value != "")
    ensures rec.finalRedirectUrl.Some? && resp.Found? ==> resp.location == rec.finalRedirectUrl.value
    ensures rec.finalRedirectUrl.None? ==>
              (resp.Found? <==> default.Some? && default.value != "")
    ensures rec.finalRedirectUrl.None? && resp.Found? ==> resp.location == default.value
  {
    var candidate := if rec.finalRedirectUrl.Some? then rec.finalRedirectUrl else default;
    if candidate.Some? && candidate.value != "" then Found(candidate.value) else Page(SUCCESS_PAGE)
  }

  /** `register`: raises `registered`, publishes it and sends the caller to the final target. */
  function Register(cfg: Config, st: Store, now: int, key: string): (o: Outcome)
    ensures Transition(cfg, st, now, key, Registered).Err? ==>
              o == Outcome(st, [], Failed(Transition(cfg, st, now, key, Registered).error))
    ensures Transition(cfg, st, now, key, Registered).Ok? ==>
              var m := Transition(cfg, st, now, key, Registered).value;
              && o.store == m.store
              && o.published == [Message(m.secret, "registered")]
              && o.response == FinalTarget(m.rec, cfg.finalRedirectUrl)
  {
    match Transition(cfg, st, now, key, Registered)
    case Err(e) => Outcome(st, [], Failed(e))
    case Ok(m) =>
      Outcome(m.store, [Message(m.secret, FlagName(Registered))], FinalTarget(m.rec, cfg.finalRedirectUrl))
  }

  /** A status `fetch_info` can wait for. */
  predicate IsStatus(s: string) {
    s == "registered" || s == "redirected"
  }

  /** The `wait` arguments kept by `fetch_info`: those naming a flag. */
  function FilterStatuses(wait: seq<string>): (r: seq<string>)
    ensures forall s :: s in r <==> s in wait && IsStatus(s)
    ensures forall s :: multiset(r)[s] == if IsStatus(s) then multiset(wait)[s] else 0
    ensures |r| <= |wait|
  {
    if wait == [] then []
    else
      assert wait == [wait[0]] + wait[1..];
      (if IsStatus(wait[0]) then [wait[0]] else []) + FilterStatuses(wait[1..])
  }

  /** A list made only of statuses passes the filter unchanged. */
  lemma {:induction false} FilterKeepsStatuses(wait: seq<string>)
    requires forall i :: 0 <= i < |wait| ==> IsStatus(wait[i])
    ensures FilterStatuses(wait) == wait
  {
    if wait != [] {
      FilterKeepsStatuses(wait[1..]);
      assert [wait[0]] + wait[1..] == wait;
    }
  }

  /** Filtering a filtered list changes nothing. */
  lemma FilterStatusesIdempotent(wait: seq<string>)
    ensures FilterStatuses(FilterStatuses(wait)) == FilterStatuses(wait)
  {
    var r := FilterStatuses(wait);
    forall i | 0 <= i < |r|
      ensures IsStatus(r[i])
    {
      assert r[i] in r;
    }
    FilterKeepsStatuses(r);
  }

  /** `parsed_info.get(status)` for a status name. */
  predicate StatusRaised(rec: Record, s: string) {
    (s == "registered" && rec.registered) || (s == "redirected" && rec.redirected)
  }

  /** `any(parsed_info.get(status) for status in statuses)`. */
  predicate AnyRaised(rec: Record, statuses: seq<string>) {
    exists s :: s in statuses && StatusRaised(rec, s)
  }

  /** What one wait on the subscription yields: no message within the timeout, or a message. */
  datatype Event = Timeout | Msg(text: string)

  /** The `j`-th wait's event; waits past the end of the sequence time out. */
  function EventAt(events: seq<Event>, j: nat): Event {
    if j < |events| then events[j] else Timeout
  }

  /** An event that ends the wait loop: a timeout, or a message naming a status waited for. */
  predicate Stops(e: Event, statuses: seq<string>) {
    e.Timeout? || e.text in statuses
  }

  datatype Stop = Matched | TimedOut | Exhausted

  /** How many waits the loop made and why it ended. */
  datatype Listened = Listened(consumed: nat, stop: Stop)

  /** The `for _ in range(10)` loop of `fetch_info`, with `budget` waits left:
      it ends at the first stopping event or when the budget runs out. */
  function Listen(events: seq<Event>, statuses: seq<string>, budget: nat): (r: Listened)
    ensures r.consumed <= budget
    ensures r.stop == Exhausted <==> forall j :: 0 <= j < budget ==> !Stops(EventAt(events, j), statuses)
    ensures r.stop == Exhausted ==> r.consumed == budget
    ensures r.stop != Exhausted ==>
              && 1 <= r.consumed
              && Stops(EventAt(events, r.consumed - 1), statuses)
              && forall j :: 0 <= j < r.consumed - 1 ==> !Stops(EventAt(events, j), statuses)
    ensures r.stop == Matched ==> EventAt(events, r.consumed - 1).Msg?
    ensures r.stop == TimedOut ==> EventAt(events, r.consumed - 1).Timeout?
    decreases budget
  {
    if budget == 0 then Listened(0, Exhausted)
    else
      match EventAt(events, 0)
      case Timeout => Listened(1, TimedOut)
      case Msg(text) =>
        if text in statuses then Listened(1, Matched)
        else
          var rest := Listen(events[1..], statuses, budget - 1);
          forall j | 1 <= j < budget
            ensures EventAt(events, j) == EventAt(events[1..], j - 1)
          {
          }
          forall j | 0 <= j < budget - 1
            ensures EventAt(events[1..], j) == EventAt(events, j + 1)
          {
          }
          Listened(rest.consumed + 1, rest.stop)
  }

  /** What `fetch_info` answers with, whether it subscribed, and how many waits it made. */
  datatype Fetched = Fetched(reply: Result<Record, Error>, subscribed: bool, consumed: nat)

  /** `fetch_info`: reads the record; returns it at once when no flag is
      waited for or one already holds; otherwise waits on the secret's channel
      (`events`) and answers with a fresh read of the store as it is after the
      wait (`later` at tick `laterNow`). */
  function FetchInfo(st: Store, now: int, secret: string, wait: seq<string>, events: seq<Event>,
                     later: Store, laterNow: int): (r: Fetched)
    ensures ReadRecord(st, now, secret).Err? ==> r == Fetched(ReadRecord(st, now, secret), false, 0)
    ensures ReadRecord(st, now, secret).Ok? ==>
              (!r.subscribed <==> |FilterStatuses(wait)| == 0 || AnyRaised(ReadRecord(st, now, secret).value, wait))
    ensures !r.subscribed ==> r.reply == ReadRecord(st, now, secret) && r.consumed == 0
    ensures r.subscribed ==> r.reply == ReadRecord(later, laterNow, secret) && 1 <= r.consumed <= MAX_WAITS
    ensures r.subscribed ==>
              && (r.consumed == MAX_WAITS || Stops(EventAt(events, r.consumed - 1), FilterStatuses(wait)))
              && forall j :: 0 <= j < r.consumed - 1 ==> !Stops(EventAt(events, j), FilterStatuses(wait))
  {
    var statuses := FilterStatuses(wait);
    match ReadRecord(st, now, secret)
    case Err(e) => Fetched(Err(e), false, 0)
    case Ok(rec) =>
      if |statuses| == 0 || AnyRaised(rec, statuses) then Fetched(Ok(rec), false, 0)
      else
        var l := Listen(events, statuses, MAX_WAITS);
        Fetched(ReadRecord(later, laterNow, secret), true, l.consumed)
  }
}
