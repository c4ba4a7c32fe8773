/**
 * The decision logic of the HTTP routes in app.py that sit in front of the
 * core: `login`, `start_hunt`, `send_whatsapp` and `get_stats`. A request body
 * is reduced to the fields a route reads (`None` when the key is absent), the
 * signed-in user to its id and role, and each database call to its outcome.
 * An `HTTPException(status_code=...)` becomes a `Refused` reply with that status.
 */
module Routes {
  import opened Basics
  import opened Config
  import opened Auth
  import opened WhatsApp

  // ---------------------------------------------------------------------
  // POST /auth/login
  // ---------------------------------------------------------------------

  datatype LoginReply = LoggedIn(user: SessionUser, token: Claims) | LoginRefused(status: int)

  /**
   * `login`: both fields must be present and non-empty (400), then the
   * credentials are looked up and `authenticate` decides; any failure of it,
   * a server error included, is answered with 401.
   */
  function Login(username: Option<string>, password: Option<string>,
                 lookup: (string, string) -> UserQuery,
                 createToken: (string, string) -> TokenOutcome): (r: LoginReply)
    ensures r == LoginRefused(400) <==> !Truthy(username) || !Truthy(password)
    ensures r == LoginRefused(401) <==>
              Truthy(username) && Truthy(password)
              && !Authenticate(lookup(username.value, password.value), createToken).Authenticated?
    ensures r.LoggedIn? <==>
              Truthy(username) && Truthy(password)
              && Authenticate(lookup(username.value, password.value), createToken).Authenticated?
    ensures r.LoggedIn? ==>
              var a := Authenticate(lookup(username.value, password.value), createToken);
              a.Authenticated? && r.user == a.user && r.token == a.token
  {
    if !Truthy(username) || !Truthy(password) then LoginRefused(400)
    else
      match Authenticate(lookup(username.value, password.value), createToken)
      case AuthFailed(_) => LoginRefused(401)
      case Authenticated(user, token) => LoggedIn(user, token)
  }

  /** A missing field is refused before the users table is consulted: the answer does not depend on it. */
  lemma LoginChecksFieldsFirst(username: Option<string>, password: Option<string>,
                               l1: (string, string) -> UserQuery, l2: (string, string) -> UserQuery,
                               c1: (string, string) -> TokenOutcome, c2: (string, string) -> TokenOutcome)
    requires !Truthy(username) || !Truthy(password)
    ensures Login(username, password, l1, c1) == Login(username, password, l2, c2) == LoginRefused(400)
  {
  }

  /**
   * With auth.py's token function, login succeeds exactly for an active
   * first row; the active user receives its role's permissions.
   */
  lemma LoginSignsInActiveUser(username: string, password: string, lookup: (string, string) -> UserQuery)
    requires username != "" && password != ""
    ensures var q := lookup(username, password);
            var r := Login(Some(username), Some(password), lookup, CreateToken);
            r.LoggedIn? <==> q.Rows? && q.rows != [] && IsActive(q.rows[0])
    ensures var q := lookup(username, password);
            var r := Login(Some(username), Some(password), lookup, CreateToken);
            r.LoggedIn? ==> r.user.permissions == RolePermissions(q.rows[0].role)
  {
    AuthenticateSignsInActiveUser(lookup(username, password));
  }

  /** With app.py's own token function, every login attempt is refused. */
  lemma LoginAsWrittenInAppNeverSucceeds(username: Option<string>, password: Option<string>,
                                         lookup: (string, string) -> UserQuery)
    ensures Login(username, password, lookup, CreateTokenAsWrittenInApp).LoginRefused?
  {
    if Truthy(username) && Truthy(password) {
      AppAuthenticateNeverSucceeds(lookup(username.value, password.value));
    }
  }

  // ---------------------------------------------------------------------
  // POST /hunt
  // ---------------------------------------------------------------------

  /** A call of `hunter.search(query, city, user_id)` queued as a background task. */
  datatype HuntJob = HuntJob(query: string, city: string, userId: string)

  /** The reply, with the background tasks the route queued. */
  datatype HuntReply =
    | HuntStarted(message: string, tasks: seq<HuntJob>)
    | HuntRefused(status: int, tasks: seq<HuntJob>)

  /** The roles that may start hunts and send messages. */
  predicate MayCreate(role: string)
  {
    role == "agent" || role == "manager" || role == "admin" || role == "owner"
  }

  /** `"create"` is held by exactly the agent, manager, admin and owner roles. */
  lemma CreateHolders(role: string)
    ensures CheckPermission(role, "create") <==> MayCreate(role)
  {
    if role in ROLES && role != "owner" {
      assert role == "viewer" || role == "agent" || role == "manager" || role == "admin";
    }
  }

  /** `start_hunt`: 403 without the `"create"` permission, 400 without a query and a city, else one queued search. */
  function StartHunt(role: string, userId: string, query: Option<string>, city: Option<string>): (r: HuntReply)
    ensures r == HuntRefused(403, []) <==> !CheckPermission(role, "create")
    ensures r == HuntRefused(400, []) <==> CheckPermission(role, "create") && (!Truthy(query) || !Truthy(city))
    ensures r.HuntStarted? <==> CheckPermission(role, "create") && Truthy(query) && Truthy(city)
    ensures r.HuntStarted? ==>
              r.tasks == [HuntJob(query.value, city.value, userId)]
              && r.message == "بدأ البحث عن " + query.value + " في " + city.value
    ensures r.HuntRefused? ==> r.tasks == []
  {
    if !CheckPermission(role, "create") then HuntRefused(403, [])
    else if !Truthy(query) || !Truthy(city) then HuntRefused(400, [])
    else HuntStarted("بدأ البحث عن " + query.value + " في " + city.value, [HuntJob(query.value, city.value, userId)])
  }

  /** A viewer is refused with 403 whatever it asks for, and queues nothing. */
  lemma ViewerCannotHunt(userId: string, query: Option<string>, city: Option<string>)
    ensures StartHunt("viewer", userId, query, city) == HuntRefused(403, [])
  {
    CreateHolders("viewer");
  }

  /** A role allowed to create with a query and a city queues exactly one search, for itself. */
  lemma HuntQueuesOneSearch(role: string, userId: string, query: string, city: string)
    requires MayCreate(role) && query != "" && city != ""
    ensures var r := StartHunt(role, userId, Some(query), Some(city));
            r.HuntStarted? && |r.tasks| == 1 && r.tasks[0].userId == userId
            && r.tasks[0].query == query && r.tasks[0].city == city
  {
    CreateHolders(role);
  }

  // ---------------------------------------------------------------------
  // POST /whatsapp/send
  // ---------------------------------------------------------------------

  datatype SendReply = Delivered(result: SendResult) | SendRefused(status: int)

  /** `send_whatsapp`: 403 without `"create"`, 400 without a phone and a message, 400 when sending fails. */
  function SendWhatsApp(role: string, phone: Option<string>, message: Option<string>,
                        m: Manager, twilio: Delivery -> TwilioOutcome): (r: SendReply)
    ensures r == SendRefused(403) <==> !CheckPermission(role, "create")
    ensures r.Delivered? <==>
              CheckPermission(role, "create") && Truthy(phone) && Truthy(message)
              && SendMessage(m, phone.value, message.value, twilio).Sent?
    ensures r.Delivered? ==> r.result == SendMessage(m, phone.value, message.value, twilio)
    ensures r.SendRefused? ==> r.status == 403 || r.status == 400
  {
    if !CheckPermission(role, "create") then SendRefused(403)
    else if !Truthy(phone) || !Truthy(message) then SendRefused(400)
    else
      var sent := SendMessage(m, phone.value, message.value, twilio);
      if sent.Sent? then Delivered(sent) else SendRefused(400)
  }

  /** With Twilio unconfigured, a permitted request with both fields is answered with 400. */
  lemma SendWhileDisabledRefused(role: string, phone: string, message: string,
                                 m: Manager, twilio: Delivery -> TwilioOutcome)
    requires CheckPermission(role, "create") && phone != "" && message != "" && !Enabled(m)
    ensures SendWhatsApp(role, Some(phone), Some(message), m, twilio) == SendRefused(400)
  {
  }

  // ---------------------------------------------------------------------
  // GET /stats
  // ---------------------------------------------------------------------

  /** A row of the leads table, reduced to its `status` column (`None` when absent). */
  datatype LeadRow = LeadRow(status: Option<string>)

  /** What `db.execute(table="leads", operation="select", ...)` produced. */
  datatype LeadQuery = LeadRows(rows: seq<LeadRow>) | LeadsRaised(message: string)

  datatype Stats = Stats(totalLeads: nat, newLeads: nat, converted: nat)

  datatype StatsReply = StatsOk(stats: Stats) | StatsRefused(status: int, detail: string)

  /** `len([l for l in leads if l.get("status") == s])`. */
  function CountStatus(rows: seq<LeadRow>, s: string): (n: nat)
    ensures n <= |rows|
  {
    if rows == [] then 0
    else CountStatus(rows[..|rows| - 1], s) + (if rows[|rows| - 1].status == Some(s) then 1 else 0)
  }

  /** No row has the status exactly when the count is zero; every row has it exactly when the count is the total. */
  lemma {:induction false} CountStatusExtremes(rows: seq<LeadRow>, s: string)
    ensures CountStatus(rows, s) == 0 <==> forall i :: 0 <= i < |rows| ==> rows[i].status != Some(s)
    ensures CountStatus(rows, s) == |rows| <==> forall i :: 0 <= i < |rows| ==> rows[i].status == Some(s)
  {
    if rows != [] {
      var n := |rows| - 1;
      CountStatusExtremes(rows[..n], s);
      assert forall i :: 0 <= i < n ==> rows[..n][i] == rows[i];
    }
  }

  /** Rows of two different statuses are counted apart: together they are at most all the rows. */
  lemma {:induction false} DistinctStatusesBounded(rows: seq<LeadRow>, s: string, t: string)
    requires s != t
    ensures CountStatus(rows, s) + CountStatus(rows, t) <= |rows|
  {
    if rows != [] {
      DistinctStatusesBounded(rows[..|rows| - 1], s, t);
    }
  }

  /** `get_stats`: the three counts over the user's leads, or 500 with the error when the query raises. */
  function GetStats(q: LeadQuery): (r: StatsReply)
    ensures q.LeadsRaised? ==> r == StatsRefused(500, q.message)
    ensures q.LeadRows? ==>
              r.StatsOk? && r.stats.totalLeads == |q.rows|
              && r.stats.newLeads == CountStatus(q.rows, "new")
              && r.stats.converted == CountStatus(q.rows, "converted")
  {
    match q
    case LeadsRaised(message) => StatsRefused(500, message)
    case LeadRows(rows) => StatsOk(Stats(|rows|, CountStatus(rows, "new"), CountStatus(rows, "converted")))
  }

  /** New and converted leads together never exceed the total. */
  lemma StatsBounded(q: LeadQuery)
    requires q.LeadRows?
    ensures var st := GetStats(q).stats;
            st.newLeads <= st.totalLeads && st.converted <= st.totalLeads
            && st.newLeads + st.converted <= st.totalLeads
  {
    DistinctStatusesBounded(q.rows, "new", "converted");
  }
}
