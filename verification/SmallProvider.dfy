/**
 A provider with one client, for runs that show what can happen. Its configuration is valid, whatever the
 library accepts as URLs and tokens.
 */
module SmallProvider {
  import opened Text
  import opened Domain
  import opened Freshness
  import opened Configuration
  import opened PendingLedger
  import opened LazyExpiry
  import opened Flows
  import opened SequentialCalls
  import opened ServiceRuns
  import opened Service

  /** What the runs do not choose: the library, a redirect URI, a browser state and a CSRF token, and the sizes. */
  datatype Setting = Setting(lib: Library, redirect: string, browser: string, csrf: string, quota: int, maxEntries: int)

  /** The redirect URI passes validation over HTTPS, and the tokens are such as the provider draws. */
  ghost predicate Realistic(g: Setting) {
    ValidAbsoluteURL(g.lib, g.redirect, true) && g.browser != "" && g.lib.opaqueToken(g.browser) && g.csrf != "" && g.quota >= 1
  }

  /** Transactions live for ten units of time. */
  ghost function SmallEnv(g: Setting): Env {
    var client := Client("c", [g.redirect], [], [], [], false, map[], map[], map[]);
    Env(Config("", 10, g.quota, 0, map["c" := client], "", map[], map[], true), g.lib, g.maxEntries)
  }

  lemma SmallIsValid(g: Setting)
    requires Realistic(g)
    ensures ValidConfig(SmallEnv(g).lib, SmallEnv(g).cfg)
  {
  }

  // ---------------------------------------------------------------- a logout

  ghost function SmallRequest(g: Setting): LogoutRequest {
    LogoutRequest("x", HydraClient("c", "", [g.redirect]), "")
  }

  ghost function SmallCall(): Call {
    StartLogout("x", "")
  }

  /** Everything happens at time `now`, and the handle drawn is `h`. */
  ghost function SmallOutside(g: Setting, now: Time, h: Handle): Outside {
    Outside(Err(ErrUpstream), Err(ErrUpstream), Ok(SmallRequest(g)), Some(g.browser), Some(g.csrf), [Some(h), None, None],
            Err(ErrUpstream), Err(ErrUpstream), Err(ErrUpstream), now, now, now, now)
  }

  ghost function SmallTransaction(g: Setting, now: Time): Transaction {
    Transaction(FlowLogout, "x", g.csrf, g.browser, "c", "", "", "", "", None, ZERO_TIME, [], [], "", now + 10)
  }

  lemma SmallPlan(env: Env, g: Setting)
    requires env == SmallEnv(g)
    ensures ValidChallenge(env.cfg, "x")
    ensures PlanLogout(env.cfg, "x", SmallRequest(g)) == Ok(env.cfg.clients["c"])
    ensures forall now ::
      LogoutTransaction(env.cfg, SmallRequest(g), env.cfg.clients["c"], now) == SmallTransaction(g, now).(browserState := "", csrfToken := "")
  {
    assert ByteLen("x") == 1;
  }

  lemma SmallServed(env: Env, g: Setting, s: System, id: Id, now: Time, h: Handle)
    requires env == SmallEnv(g)
    ensures Served(env, s, id, SmallCall(), SmallOutside(g, now, h)).0 ==
      Creation(LimitsOf(env), s, SmallTransaction(g, now), [Some(h), None, None], now, now).0
  {
    SmallPlan(env, g);
  }
}
