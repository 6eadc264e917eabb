/**
 A client of the store that walks one session history from an empty store and
 checks each response against the handlers' contracts alone: an admin promotes
 bob, alice asks bob, bob answers, and the feed then shows the question.
 Each step starts from the store the previous step left.
 */
module QAScenario {
  import opened Wrappers
  import opened QAData
  import opened QAStore

  /** The users table after admin, alice and bob have registered, in that order. */
  function Registered(hash: (string, string) -> string, bobExpert: string): seq<User> {
    [ User(0, "admin", hash("salt-0", "pw-admin"), Off, On),
      User(1, "alice", hash("salt-1", "pw-alice"), Off, Off),
      User(2, "bob", hash("salt-2", "pw-bob"), bobExpert, Off) ]
  }

  method RegisterTwo(hashPassword: (string, string) -> string, checkPassword: (string, string) -> bool)
    returns (app: Store)
    ensures fresh(app) && app.Valid()
    ensures app.hashPassword == hashPassword && app.checkPassword == checkPassword
    ensures app.users == Registered(hashPassword, Off)[..2] && app.questions == [] && app.nextId == 2
  {
    app := new Store(hashPassword, checkPassword);
    var r := app.Register(Post, "admin", "pw-admin", "salt-0");
    assert app.users == Registered(hashPassword, Off)[..1];
    r := app.Register(Post, "alice", "pw-alice", "salt-1");
  }

  method RegisterThree(hashPassword: (string, string) -> string, checkPassword: (string, string) -> bool)
    returns (app: Store)
    ensures fresh(app) && app.Valid()
    ensures app.hashPassword == hashPassword && app.checkPassword == checkPassword
    ensures app.users == Registered(hashPassword, Off) && app.questions == [] && app.nextId == 3
    ensures app.session == Some("bob")
  {
    app := RegisterTwo(hashPassword, checkPassword);
    var r := app.Register(Post, "bob", "pw-bob", "salt-2");
  }

  /** bob is neither admin nor expert yet, and a taken name cannot be registered again. */
  method BobIsRefused(app: Store)
    requires app.Valid()
    requires app.users == Registered(app.hashPassword, Off) && app.questions == [] && app.nextId == 3
    requires app.session == Some("bob")
    modifies app
    ensures app.Valid()
    ensures app.users == Registered(app.hashPassword, Off) && app.questions == [] && app.nextId == 3
  {
    assert app.Current() == Some(app.users[2]);
    var r := app.Users();
    assert r == Redirect(ToIndex);
    r := app.Unanswered();
    assert r == Redirect(ToIndex);

    assert app.users[1].name == "alice";
    r := app.Register(Post, "alice", "other", "salt-3");
    assert r == Render(RegisterPage, Some(UserAlreadyRegistered));
  }

  method AdminPromotesBob(app: Store)
    requires app.Valid()
    requires forall salt, password :: app.checkPassword(app.hashPassword(salt, password), password)
    requires app.users == Registered(app.hashPassword, Off) && app.questions == [] && app.nextId == 3
    modifies app
    ensures app.Valid()
    ensures app.users == Registered(app.hashPassword, On) && app.questions == [] && app.nextId == 3
  {
    assert app.users[0].name == "admin";
    var r := app.Login(Post, "admin", "pw-admin");
    assert app.Current() == Some(app.users[0]);
    r := app.Promote(2);
    assert app.users == Registered(app.hashPassword, On);
  }

  method AliceAsksBob(app: Store)
    requires app.Valid()
    requires forall salt, password :: app.checkPassword(app.hashPassword(salt, password), password)
    requires app.users == Registered(app.hashPassword, On) && app.questions == [] && app.nextId == 3
    modifies app
    ensures app.Valid()
    ensures app.users == Registered(app.hashPassword, On)
    ensures app.questions == [Question(3, "Why?", "", 1, 2)] && app.nextId == 4
  {
    assert app.users[1].name == "alice";
    var r := app.Login(Post, "alice", "pw-alice");
    assert app.Current() == Some(app.users[1]);
    r := app.Ask(Post, "Why?", 2);
    r := app.Index();
    assert r.page.feed == [];
  }

  method BobSeesPending(app: Store)
    requires app.Valid()
    requires forall salt, password :: app.checkPassword(app.hashPassword(salt, password), password)
    requires app.users == Registered(app.hashPassword, On)
    requires app.questions == [Question(3, "Why?", "", 1, 2)] && app.nextId == 4
    modifies app
    ensures app.Valid()
    ensures app.users == Registered(app.hashPassword, On)
    ensures app.questions == [Question(3, "Why?", "", 1, 2)] && app.nextId == 4
    ensures app.session == Some("bob")
  {
    assert app.users[2].name == "bob";
    var r := app.Login(Post, "bob", "pw-bob");
    assert app.Current() == Some(app.users[2]);
    r := app.Unanswered();
    assert app.users[1].id == 1;
    assert r.page.pending == [PendingEntry(3, "Why?", "alice")];
  }

  method BobAnswers(app: Store)
    requires app.Valid()
    requires app.users == Registered(app.hashPassword, On)
    requires app.questions == [Question(3, "Why?", "", 1, 2)] && app.nextId == 4
    requires app.session == Some("bob")
    modifies app
    ensures app.Valid()
    ensures app.users == Registered(app.hashPassword, On)
    ensures app.questions == [Question(3, "Why?", "Because.", 1, 2)]
    ensures app.session == Some("bob")
  {
    assert app.users[2].name == "bob";
    assert app.Current() == Some(app.users[2]);
    var r := app.Answer(Post, 3, "Because.");
    assert r == Redirect(ToUnanswered);
    assert app.questions[0] == Question(3, "Why?", "Because.", 1, 2);
  }

  method FeedShowsAnswer(app: Store)
    requires app.Valid()
    requires app.users == Registered(app.hashPassword, On)
    requires app.questions == [Question(3, "Why?", "Because.", 1, 2)]
    requires app.session == Some("bob")
    modifies app
  {
    assert app.users[1].id == 1 && app.users[2].id == 2;
    var r := app.Index();
    assert r.page.feed == [FeedEntry(3, "Why?", "alice", "bob")];
    assert app.Current() == Some(app.users[2]);
    r := app.Unanswered();
    assert r.page.pending == [];
    r := app.Logout();
    r := app.ShowQuestion(3);
    assert r.page.shown == Some(Question(3, "Why?", "Because.", 1, 2));
  }

  method AskAndAnswer(hashPassword: (string, string) -> string, checkPassword: (string, string) -> bool)
    requires forall salt, password :: checkPassword(hashPassword(salt, password), password)
  {
    var app := RegisterThree(hashPassword, checkPassword);
    BobIsRefused(app);
    AdminPromotesBob(app);
    AliceAsksBob(app);
    BobSeesPending(app);
    BobAnswers(app);
    FeedShowsAnswer(app);
  }
}
