/**
 * The greeting of the dashboard page. Two key/value stores decide which
 * greeting plays: local storage, which outlives the login, remembers that the
 * introduction (`bemutatkozas`) was played for an email; session storage, which
 * lives for one tab, remembers the logged-in email and that the welcome
 * (`udvozles`) was played in this login.
 */
module DashboardGreeting {
  import opened Common
  import opened Requests

  const BemutatkozasPrefix: string := "hasPlayedBemutatkozas_"
  const UdvozlesPrefix: string := "hasPlayedUdvozlesSession_"
  const SessionUserKey: string := "sessionUserEmail"
  const CurrentUserKey: string := "currentUserEmail"

  function BemKey(email: string): string { BemutatkozasPrefix + email }
  function UdvKey(email: string): string { UdvozlesPrefix + email }

  /** Each email has its own keys, and no greeting key is the session-user key. */
  lemma KeysDistinct(e1: string, e2: string)
    ensures BemKey(e1) == BemKey(e2) <==> e1 == e2
    ensures UdvKey(e1) == UdvKey(e2) <==> e1 == e2
    ensures UdvKey(e1) != SessionUserKey && BemKey(e1) != UdvKey(e2)
  {
    if BemKey(e1) == BemKey(e2) {
      assert e1 == BemKey(e1)[|BemutatkozasPrefix|..];
    }
    if UdvKey(e1) == UdvKey(e2) {
      assert e1 == UdvKey(e1)[|UdvozlesPrefix|..];
    }
    assert UdvKey(e1)[0] == 'h';
    assert BemKey(e1)[9] == 'B' && UdvKey(e2)[9] == 'U';
  }

  /** A stored value counts as set when it is present and not the empty string. */
  predicate Truthy(store: map<string, string>, key: string) {
    key in store && store[key] != ""
  }

  /** The email read at mount: the stored current user, or "anonymous" when there is none. */
  function StoredEmail(local: map<string, string>): (e: string)
    ensures Truthy(local, CurrentUserKey) ==> e == local[CurrentUserKey]
    ensures !Truthy(local, CurrentUserKey) ==> e == "anonymous"
    ensures e != ""
  {
    if Truthy(local, CurrentUserKey) then local[CurrentUserKey] else "anonymous"
  }

  datatype Stores = Stores(local: map<string, string>, session: map<string, string>)

  /** The session is a fresh login for `email` unless it already records `email` as its user. */
  predicate FreshLogin(session: map<string, string>, email: string) {
    !(SessionUserKey in session && session[SessionUserKey] == email)
  }

  /** Session storage after the login check: a fresh login forgets the welcome and records the user. */
  function LoginChecked(session: map<string, string>, email: string): map<string, string> {
    if FreshLogin(session, email) then (session - {UdvKey(email)})[SessionUserKey := email] else session
  }

  /**
   * One run of the greeting effect: `waiting` is true while authentication is
   * being checked or loaded, `email` is None before the mount effect ran.
   */
  function GreetingRun(waiting: bool, email: Option<string>, st: Stores): (r: (Stores, seq<Call>))
    ensures |r.1| <= 1
    ensures (waiting || email.None?) ==> r == (st, [])
    ensures !waiting && email.Some? ==>
      (r.1 == [PlayGroup("bemutatkozas", true)] <==> !Truthy(st.local, BemKey(email.value)))
    ensures !waiting && email.Some? ==>
      (r.1 == [PlayGroup("udvozles", false)]
       <==> Truthy(st.local, BemKey(email.value))
            && (FreshLogin(st.session, email.value) || !Truthy(st.session, UdvKey(email.value))))
    ensures !waiting && email.Some? ==>
      Truthy(r.0.local, BemKey(email.value)) && !FreshLogin(r.0.session, email.value)
    ensures !waiting && email.Some? && r.1 == [PlayGroup("udvozles", false)] ==> Truthy(r.0.session, UdvKey(email.value))
    ensures forall k :: Truthy(st.local, k) ==> Truthy(r.0.local, k)
    ensures !waiting && email.Some? && !FreshLogin(st.session, email.value) && Truthy(st.session, UdvKey(email.value)) ==>
      r.0.session == st.session
  {
    if waiting || email.None? then (st, [])
    else
      var e := email.value;
      KeysDistinct(e, e);
      var session := LoginChecked(st.session, e);
      if !Truthy(st.local, BemKey(e)) then
        (Stores(st.local[BemKey(e) := "1"], session), [PlayGroup("bemutatkozas", true)])
      else if !Truthy(session, UdvKey(e)) then
        (Stores(st.local, session[UdvKey(e) := "1"]), [PlayGroup("udvozles", false)])
      else
        (Stores(st.local, session), [])
  }

  /** Runs of the effect for one email on one tab: both stores persist between runs. */
  function SameTabRuns(email: string, st: Stores, n: nat): (Stores, seq<Call>)
    decreases n
  {
    if n == 0 then (st, [])
    else
      var first := GreetingRun(false, Some(email), st);
      var rest := SameTabRuns(email, first.0, n - 1);
      (rest.0, first.1 + rest.1)
  }

  /**
   * Runs of the effect for one email where the tab may change between runs:
   * `sessions[i]` is whatever session storage the i-th run finds, only local
   * storage persists.
   */
  function AnyTabRuns(email: string, local: map<string, string>, sessions: seq<map<string, string>>): seq<Call>
    decreases |sessions|
  {
    if sessions == [] then []
    else
      var first := GreetingRun(false, Some(email), Stores(local, sessions[0]));
      first.1 + AnyTabRuns(email, first.0.local, sessions[1..])
  }

  /** The introduction plays at most once per email while local storage persists, and never once it was recorded. */
  lemma {:induction false} BemutatkozasOncePerEmail(email: string, local: map<string, string>, sessions: seq<map<string, string>>)
    ensures GroupRequests(AnyTabRuns(email, local, sessions), "bemutatkozas") <= (if Truthy(local, BemKey(email)) then 0 else 1)
    decreases |sessions|
  {
    if sessions != [] {
      var first := GreetingRun(false, Some(email), Stores(local, sessions[0]));
      BemutatkozasOncePerEmail(email, first.0.local, sessions[1..]);
      GroupRequestsAppend(first.1, AnyTabRuns(email, first.0.local, sessions[1..]), "bemutatkozas");
      if first.1 != [] {
        assert GroupRequests(first.1[1..], "bemutatkozas") == 0;
      }
    }
  }

  /** The welcome plays at most once per login, and never when this login already played it. */
  lemma {:induction false} UdvozlesOncePerLogin(email: string, st: Stores, n: nat)
    ensures GroupRequests(SameTabRuns(email, st, n).1, "udvozles")
      <= (if !FreshLogin(st.session, email) && Truthy(st.session, UdvKey(email)) then 0 else 1)
    decreases n
  {
    if n > 0 {
      var first := GreetingRun(false, Some(email), st);
      UdvozlesOncePerLogin(email, first.0, n - 1);
      GroupRequestsAppend(first.1, SameTabRuns(email, first.0, n - 1).1, "udvozles");
      if first.1 != [] {
        assert GroupRequests(first.1[1..], "udvozles") == 0;
      }
      if !FreshLogin(st.session, email) && Truthy(st.session, UdvKey(email)) {
        assert GroupRequests(first.1, "udvozles") == 0;
      }
    }
  }

  class Dashboard {
    var local: map<string, string>
    var session: map<string, string>
    /** The email the greeting uses; None until the mount effect ran. */
    var userEmail: Option<string>
    /** Requests to the sound manager, in order. */
    var log: seq<Call>

    constructor (local0: map<string, string>, session0: map<string, string>)
      ensures local == local0 && session == session0 && userEmail == None && log == []
    {
      local, session, userEmail, log := local0, session0, None, [];
    }

    /** The mount effect: reads the current user's email. */
    method Mount()
      modifies this`userEmail
      ensures userEmail == Some(StoredEmail(local))
    {
      if CurrentUserKey in local && local[CurrentUserKey] != "" {
        userEmail := Some(local[CurrentUserKey]);
      } else {
        userEmail := Some("anonymous");
      }
    }

    /** The greeting effect, which runs when the auth flags or the email change. */
    method GreetingEffect(isCheckingAuth: bool, authLoading: bool)
      modifies this`local, this`session, this`log
      ensures var r := GreetingRun(isCheckingAuth || authLoading, userEmail, Stores(old(local), old(session)));
        local == r.0.local && session == r.0.session && log == old(log) + r.1
    {
      if isCheckingAuth || authLoading || userEmail.None? {
        return;
      }
      var email := userEmail.value;
      var bemKey := BemutatkozasPrefix + email;
      var udvKey := UdvozlesPrefix + email;
      if !(SessionUserKey in session && session[SessionUserKey] == email) {
        session := session - {udvKey};
        session := session[SessionUserKey := email];
      }
      if !(bemKey in local && local[bemKey] != "") {
        log := log + [PlayGroup("bemutatkozas", true)];
        local := local[bemKey := "1"];
        return;
      }
      if !(udvKey in session && session[udvKey] != "") {
        log := log + [PlayGroup("udvozles", false)];
        session := session[udvKey := "1"];
      }
    }
  }
}
