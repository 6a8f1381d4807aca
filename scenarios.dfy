/**
 * Worked examples: the three-ping fixture through the table filter, and a
 * client that registers, logs in, sends a ping and lists it, using only the
 * contracts of the routes.
 */
module Scenarios {

  import opened Options
  import opened JsString
  import opened Cookies
  import opened Crypto
  import opened PingTable
  import opened AuthRoute
  import opened PingsRoute

  /**
   * The fixture pings: a two-ping chain 1 <- 2 and an unrelated ping 3. The
   * long messages are written as two literals joined, which is the same string.
   */
  function Fixture(): seq<TablePing> {
    [CapeTown(), London(), NewYork()]
  }

  function CapeTown(): TablePing {
    TablePing("1", "-33.9249", "18.4241", "2025-06-21 09:12", None,
      Some("Intercepted transmission " + "from Cape Town safehouse."))
  }

  function London(): TablePing {
    TablePing("2", "51.5074", "-0.1278", "2025-06-20 15:48", Some("1"),
      Some("London extraction point " + "confirmed. Handler in position."))
  }

  function NewYork(): TablePing {
    TablePing("3", "40.7128", "-74.0060", "2025-06-19 23:32", None,
      Some("NYC drop completed. " + "Awaiting confirmation."))
  }

  /** Typing "EXTRACTION" keeps only the London ping, although its message is lower case. */
  lemma FixtureSearchExtraction()
    ensures Filter(Fixture(), "EXTRACTION") == [London()]
  {
    var f := Fixture();
    var q := "extraction";
    assert Lower("EXTRACTION") == q;
    CapeTownLacksX();
    LondonHasExtraction();
    NewYorkLacksX();
    assert KeepMatching(f[2..], q) == [];
    assert KeepMatching(f[1..], q) == [London()];
  }

  lemma LondonHasExtraction()
    ensures Matches(London(), "extraction")
  {
    var m := London().message.value;
    assert m[7..17] == "extraction";
    assert Lower(m)[7..17] == Lower(m[7..17]);
    assert OccursAt(Lower(m), "extraction", 7);
  }

  /** No searchable field holds an x in either case, so "extraction" cannot match. */
  lemma CapeTownLacksX()
    ensures !Matches(CapeTown(), "extraction")
  {
    var m := "Intercepted transmission " + "from Cape Town safehouse.";
    assert 'x' !in m && 'X' !in m;
    NoX("1");
    NoX("-33.9249");
    NoX("18.4241");
    NoX(m);
  }

  lemma NewYorkLacksX()
    ensures !Matches(NewYork(), "extraction")
  {
    var m := "NYC drop completed. " + "Awaiting confirmation.";
    assert 'x' !in m && 'X' !in m;
    NoX("3");
    NoX("40.7128");
    NoX("-74.0060");
    NoX(m);
  }

  lemma NoX(s: string)
    requires 'x' !in s && 'X' !in s
    ensures !Includes(Lower(s), "extraction")
  {
    AbsentCharExcludes(Lower(s), "extraction", 'x');
  }

  /** A client session through both routes, relying on their contracts alone. */
  method AgentSession(c: Crypto, jar: Jar)
    requires Sound(c)
  {
    var userStore := new UserStore();
    var pingStore := new PingStore();
    var reg := AuthRequest("agent@hq", "s3cret", "007", "field", "register");
    var r := userStore.Post(reg, c, "u1");
    assert r.status == 200;
    var again := userStore.Post(reg, c, "u2");
    assert again == Reply(400, Failure(EmailExists), None);

    var login := userStore.Post(AuthRequest("agent@hq", "s3cret", "", "", "login"), c, "u2");
    assert login.status == 200;
    var bad := userStore.Post(AuthRequest("nobody@hq", "s3cret", "", "", "login"), c, "u2");
    assert bad == Reply(401, Failure(InvalidCredentials), None);

    LoginStartsSession(userStore.users, "agent@hq", "s3cret", c, jar);
    var who := VerifyJWT(c, Store(jar, login.cookie.value));
    assert who == Some(Claims("u1", "agent@hq"));

    var body := PingBody(Some("10.0"), Some("20.0"), Some("test"), Some(""));
    var created := pingStore.Create(who, body, "2025-06-21T09:12:00.000Z", 1, "p1");
    assert created.Created? && created.ping.userId == "u1" && created.ping.parentId == None;
    var rejected := pingStore.Create(None, body, "2025-06-21T09:12:00.000Z", 2, "p2");
    assert rejected.Status() == 401 && |pingStore.pings| == 1;

    NonHandlerSeesOwnPings(pingStore.pings, userStore.users, who.value, created.ping);
    assert created.ping in ListPings(pingStore.pings, userStore.users, who).pings;
  }
}
