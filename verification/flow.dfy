/** Properties that relate several requests of the flow: what a creation makes
    resolvable, how long it stays so, how transitions compose, and what a
    waiter sees. */
module Flow {
  import opened Wrappers
  import opened Codes
  import opened Records
  import opened Store
  import opened Server
  import Pocket

  /** Neither the generated code nor an upper-cased explicit key holds a lower-case letter. */
  lemma CreatedKeyHasNoLower(cfg: Config, st: Store, now: int, body: map<string, string>, qs: map<string, string>,
                             mintedKey: string, mintedSecret: string)
    requires |mintedKey| == CODE_LENGTH && OverAlphabet(mintedKey)
    requires |mintedSecret| == SECRET_LENGTH && OverAlphabet(mintedSecret)
    requires Create(cfg, st, now, body, qs, mintedKey, mintedSecret).Ok?
    ensures var key := Create(cfg, st, now, body, qs, mintedKey, mintedSecret).value.created.key;
            forall i :: 0 <= i < |key| ==> !IsLower(key[i])
  {
  }

  /** Right after a creation with a positive lifetime, the secret reads a record
      with both flags false, and the code resolves to the secret both as
      returned and in the lower-cased form of the returned URL. */
  lemma CreateThenResolve(cfg: Config, st: Store, now: int, body: map<string, string>, qs: map<string, string>,
                          mintedKey: string, mintedSecret: string, typed: string)
    requires |mintedKey| == CODE_LENGTH && OverAlphabet(mintedKey)
    requires |mintedSecret| == SECRET_LENGTH && OverAlphabet(mintedSecret)
    requires cfg.keyTtl > 0
    requires Create(cfg, st, now, body, qs, mintedKey, mintedSecret).Ok?
    requires var c := Create(cfg, st, now, body, qs, mintedKey, mintedSecret).value.created;
             c.key != c.secret && (typed == c.key || typed == Lower(c.key))
    ensures var reply := Create(cfg, st, now, body, qs, mintedKey, mintedSecret).value;
            && ReadRecord(reply.store, now, reply.created.secret).Ok?
            && !ReadRecord(reply.store, now, reply.created.secret).value.registered
            && !ReadRecord(reply.store, now, reply.created.secret).value.redirected
            && ResolveCode(reply.store, now, typed) == Ok(reply.created.secret)
  {
    var reply := Create(cfg, st, now, body, qs, mintedKey, mintedSecret).value;
    CreatedKeyHasNoLower(cfg, st, now, body, qs, mintedKey, mintedSecret);
    if typed == reply.created.key {
      assert Normalise(typed) == typed;
    } else {
      LowerThenNormalise(reply.created.key);
    }
  }

  /** Once the lifetime has elapsed with no request in between, the code and
      the secret are gone: redirect and register answer not found and write
      nothing, and a wait answers not found at once. */
  lemma CreateThenExpire(cfg: Config, st: Store, now: int, body: map<string, string>, qs: map<string, string>,
                         mintedKey: string, mintedSecret: string, quote: string -> string,
                         t: int, typed: string, wait: seq<string>, events: seq<Event>)
    requires |mintedKey| == CODE_LENGTH && OverAlphabet(mintedKey)
    requires |mintedSecret| == SECRET_LENGTH && OverAlphabet(mintedSecret)
    requires Create(cfg, st, now, body, qs, mintedKey, mintedSecret).Ok?
    requires Normalise(typed) == Create(cfg, st, now, body, qs, mintedKey, mintedSecret).value.created.key
    requires t >= now + cfg.keyTtl
    ensures var reply := Create(cfg, st, now, body, qs, mintedKey, mintedSecret).value;
            && Redirect(cfg, quote, reply.store, t, typed) == Outcome(reply.store, [], Failed(NotFound))
            && Register(cfg, reply.store, t, typed) == Outcome(reply.store, [], Failed(NotFound))
            && FetchInfo(reply.store, t, reply.created.secret, wait, events, reply.store, t)
               == Fetched(Err(NotFound), false, 0)
  {
  }

  /** What `_info` returns after an update is what a later read within the
      new lifetime finds under the secret. */
  lemma InfoThenRead(st: Store, now: int, ttl: int, secret: string, upd: Update, t: int)
    requires Info(st, now, ttl, secret, upd).Ok?
    requires |upd| > 0 && now <= t < now + ttl
    ensures ReadRecord(Info(st, now, ttl, secret, upd).value.store, t, secret)
            == Ok(Info(st, now, ttl, secret, upd).value.rec)
  {
  }

  /** A transition never lowers a flag of any record in the store: flags only go from false to true. */
  lemma TransitionFlagsMonotone(cfg: Config, st: Store, now: int, key: string, f: Flag, k: string, g: Flag)
    requires Transition(cfg, st, now, key, f).Ok?
    requires k in st && st[k].value.Blob? && FlagOf(st[k].value.rec, g)
    ensures var st' := Transition(cfg, st, now, key, f).value.store;
            k in st' && st'[k].value.Blob? && FlagOf(st'[k].value.rec, g)
  {
  }

  /** A transition leaves the code pointer it went through untouched, its
      expiry included: only the record's lifetime is renewed. */
  lemma TransitionKeepsPointer(cfg: Config, st: Store, now: int, key: string, f: Flag)
    requires Transition(cfg, st, now, key, f).Ok?
    ensures var m := Transition(cfg, st, now, key, f).value;
            && Normalise(key) != m.secret
            && Normalise(key) in m.store
            && m.store[Normalise(key)] == st[Normalise(key)]
  {
  }

  /** Repeating a transition at the same tick changes nothing more: the second
      write stores the entry the first one stored. */
  lemma TransitionIdempotent(cfg: Config, st: Store, now: int, key: string, f: Flag)
    requires cfg.keyTtl > 0
    requires Transition(cfg, st, now, key, f).Ok?
    ensures var m := Transition(cfg, st, now, key, f).value;
            && Transition(cfg, m.store, now, key, f).Ok?
            && Transition(cfg, m.store, now, key, f).value == m
  {
  }

  /** Repeating a transition at a later tick `t`, while the code and the
      secret are still live, finds the same secret and record and changes
      only the secret's expiry, which moves to `t + keyTtl`. */
  lemma TransitionRepeatLater(cfg: Config, st: Store, now: int, key: string, f: Flag, t: int)
    requires Transition(cfg, st, now, key, f).Ok?
    requires now <= t < now + cfg.keyTtl
    requires Live(st, t, Normalise(key))
    ensures var m := Transition(cfg, st, now, key, f).value;
            && Transition(cfg, m.store, t, key, f).Ok?
            && Transition(cfg, m.store, t, key, f).value.secret == m.secret
            && Transition(cfg, m.store, t, key, f).value.rec == m.rec
            && Transition(cfg, m.store, t, key, f).value.store == m.store[m.secret := Entry(Blob(m.rec), t + cfg.keyTtl)]
  {
    var m := Transition(cfg, st, now, key, f).value;
    TransitionKeepsPointer(cfg, st, now, key, f);
    var m2 := Transition(cfg, m.store, t, key, f).value;
    assert m2.rec == m.rec by {
      forall g
        ensures FlagOf(m2.rec, g) == FlagOf(m.rec, g)
      {
      }
    }
  }

  /** Redirecting again at tick `t`, while the code and the secret are still
      live, answers the same and changes only the secret's expiry; at the
      same tick it leaves exactly the same store. */
  lemma RedirectIdempotent(cfg: Config, quote: string -> string, st: Store, now: int, key: string, t: int)
    requires Transition(cfg, st, now, key, Redirected).Ok?
    requires now <= t < now + cfg.keyTtl
    requires Live(st, t, Normalise(key))
    ensures var o := Redirect(cfg, quote, st, now, key);
            var o2 := Redirect(cfg, quote, o.store, t, key);
            var m := Transition(cfg, st, now, key, Redirected).value;
            && o2.response == o.response
            && o2.store == o.store[m.secret := Entry(Blob(m.rec), t + cfg.keyTtl)]
            && (t == now ==> o2.store == o.store)
  {
    TransitionRepeatLater(cfg, st, now, key, Redirected, t);
  }

  /** Registering again at tick `t`, while the code and the secret are still
      live, answers the same and changes only the secret's expiry; at the
      same tick it leaves exactly the same store. */
  lemma RegisterIdempotent(cfg: Config, st: Store, now: int, key: string, t: int)
    requires Transition(cfg, st, now, key, Registered).Ok?
    requires now <= t < now + cfg.keyTtl
    requires Live(st, t, Normalise(key))
    ensures var o := Register(cfg, st, now, key);
            var o2 := Register(cfg, o.store, t, key);
            var m := Transition(cfg, st, now, key, Registered).value;
            && o2.response == o.response
            && o2.store == o.store[m.secret := Entry(Blob(m.rec), t + cfg.keyTtl)]
            && (t == now ==> o2.store == o.store)
  {
    TransitionRepeatLater(cfg, st, now, key, Registered, t);
  }

  /** The wait loop makes at most ten waits, and a stopping event within the
      budget ends it no later than that event. */
  lemma ListenStopsAtFirstStop(events: seq<Event>, statuses: seq<string>, j: nat)
    requires j < MAX_WAITS && Stops(EventAt(events, j), statuses)
    ensures var l := Listen(events, statuses, MAX_WAITS);
            l.stop != Exhausted && 1 <= l.consumed <= j + 1
  {
  }

  /** A waiter for `redirected` that subscribed before a redirect of its code
      answers with the flag raised when its final read sees the store the
      redirect left, within its lifetime. */
  lemma WaitSeesRedirect(cfg: Config, quote: string -> string, st: Store, now: int, key: string,
                         events: seq<Event>, t: int)
    requires Transition(cfg, st, now, key, Redirected).Ok?
    requires !st[Transition(cfg, st, now, key, Redirected).value.secret].value.rec.redirected
    requires now <= t < now + cfg.keyTtl
    ensures var secret := Transition(cfg, st, now, key, Redirected).value.secret;
            var o := Redirect(cfg, quote, st, now, key);
            var r := FetchInfo(st, now, secret, ["redirected"], events, o.store, t);
            && r.subscribed
            && r.reply.Ok? && r.reply.value.redirected
  {
  }

  /** The worked example of the flow: a Pocket flow created with token `token`
      redirects to a URL carrying the token, after which a wait for
      `redirected` answers at once with the flag raised, and registering
      raises the other flag and goes to the configured final target. */
  lemma PocketScenario(cfg: Config, quote: string -> string, st: Store, now: int, token: string,
                       mintedKey: string, mintedSecret: string)
    requires |mintedKey| == CODE_LENGTH && OverAlphabet(mintedKey)
    requires |mintedSecret| == SECRET_LENGTH && OverAlphabet(mintedSecret)
    requires cfg.keyTtl > 0
    ensures var body := map["service" := "pocket", "token" := token];
            var reply := Create(cfg, st, now, body, map[], mintedKey, mintedSecret);
            && reply.Ok?
            && var code := Lower(reply.value.created.key);
               var o1 := Redirect(cfg, quote, reply.value.store, now, code);
               var w := FetchInfo(o1.store, now, mintedSecret, ["redirected"], [], o1.store, now);
               var o2 := Register(cfg, o1.store, now, code);
               && o1.response == Found(Pocket.RedirectUrl(map["token" := token],
                                                          quote(cfg.serverUrl + "/register/" + code)))
               && o1.published == [Message(mintedSecret, "redirected")]
               && !w.subscribed && w.reply.Ok? && w.reply.value.redirected && !w.reply.value.registered
               && o2.response == FinalTarget(w.reply.value, cfg.finalRedirectUrl)
               && ReadRecord(o2.store, now, mintedSecret).Ok?
               && ReadRecord(o2.store, now, mintedSecret).value.registered
               && ReadRecord(o2.store, now, mintedSecret).value.redirected
  {
    var body := map["service" := "pocket", "token" := token];
    var reply := Create(cfg, st, now, body, map[], mintedKey, mintedSecret).value;
    assert reply.created.key == mintedKey;
    var code := Lower(reply.created.key);
    CreateThenResolve(cfg, st, now, body, map[], mintedKey, mintedSecret, code);
    var o1 := Redirect(cfg, quote, reply.store, now, code);
    var m1 := Transition(cfg, reply.store, now, code, Redirected).value;
    assert m1.rec.redirected && !m1.rec.registered;
    assert ReadRecord(o1.store, now, mintedSecret) == Ok(m1.rec);
    assert FilterStatuses(["redirected"]) == ["redirected"];
    assert AnyRaised(m1.rec, ["redirected"]);
    TransitionKeepsPointer(cfg, reply.store, now, code, Redirected);
    assert ResolveCode(o1.store, now, code) == Ok(mintedSecret);
  }
}
