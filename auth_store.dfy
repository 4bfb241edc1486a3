/** The client's auth store: the accessors over the browser's localStorage
    that hold the access token, the role and the two OTP flows' flags. */
module AuthStore {
  import opened Base

  const TokenKey: string := "token"
  const RoleKey: string := "role"
  const PendingEmailKey: string := "pendingEmail"
  const AwaitingOtpKey: string := "awaitingOtp"
  const PendingAdminEmailKey: string := "pendingAdminEmail"
  const AwaitingAdminOtpKey: string := "awaitingAdminOtp"

  /** The keys `clearAllAuth` removes. */
  const AuthKeys: set<string> :=
    {TokenKey, RoleKey, PendingEmailKey, AwaitingOtpKey, PendingAdminEmailKey, AwaitingAdminOtpKey}

  /** JavaScript truthiness of a string argument that may be undefined or null. */
  predicate Truthy(v: Option<string>) {
    v.Some? && v.value != ""
  }

  /** `localStorage.getItem(k)`: the stored string, or null. */
  function Get(m: map<string, string>, k: string): Option<string> {
    if k in m then Some(m[k]) else None
  }

  /** `localStorage.getItem(k) || ''`. */
  function GetOrEmpty(m: map<string, string>, k: string): (r: string)
    ensures r == "" <==> !Truthy(Get(m, k))
    ensures r != "" ==> Get(m, k) == Some(r)
  {
    if k in m then m[k] else ""
  }

  /** The part of the store one OTP flow reads and writes. */
  datatype FlowView = FlowView(email: Option<string>, awaiting: Option<string>)

  function UserFlow(m: map<string, string>): FlowView {
    FlowView(Get(m, PendingEmailKey), Get(m, AwaitingOtpKey))
  }

  function AdminFlow(m: map<string, string>): FlowView {
    FlowView(Get(m, PendingAdminEmailKey), Get(m, AwaitingAdminOtpKey))
  }

  /** The store after `clearAllAuth`: exactly the six auth keys are gone and
      every other entry is kept. */
  function ClearedAuth(m: map<string, string>): (r: map<string, string>)
    ensures forall k :: k in r <==> k in m && k !in AuthKeys
    ensures forall k :: k in r ==> r[k] == m[k]
  {
    m - AuthKeys
  }

  lemma ClearedAuthIdempotent(m: map<string, string>)
    ensures ClearedAuth(ClearedAuth(m)) == ClearedAuth(m)
  {
  }

  /** The store after an OTP page accepted a token: `saveToken(jwt)`, then
      the user flow's two removals. */
  function UserOtpDone(m: map<string, string>, jwt: string): map<string, string> {
    m[TokenKey := jwt] - {PendingEmailKey} - {AwaitingOtpKey}
  }

  /** The admin page's order: `saveToken(jwt)`, `setAwaitingAdminOtp(false)`,
      `clearPendingAdminEmail()`. */
  function AdminOtpDone(m: map<string, string>, jwt: string): map<string, string> {
    m[TokenKey := jwt] - {AwaitingAdminOtpKey} - {PendingAdminEmailKey}
  }

  /** Finishing the user flow stores the token, leaves no pending email and
      no awaiting flag, and touches neither the admin flow nor any other key. */
  lemma UserOtpDoneEndsFlow(m: map<string, string>, jwt: string)
    ensures Get(UserOtpDone(m, jwt), TokenKey) == Some(jwt)
    ensures UserFlow(UserOtpDone(m, jwt)) == FlowView(None, None)
    ensures AdminFlow(UserOtpDone(m, jwt)) == AdminFlow(m)
    ensures forall k :: k !in {TokenKey, PendingEmailKey, AwaitingOtpKey} ==> Get(UserOtpDone(m, jwt), k) == Get(m, k)
  {
  }

  /** The same for the admin flow, which leaves the user flow alone. */
  lemma AdminOtpDoneEndsFlow(m: map<string, string>, jwt: string)
    ensures Get(AdminOtpDone(m, jwt), TokenKey) == Some(jwt)
    ensures AdminFlow(AdminOtpDone(m, jwt)) == FlowView(None, None)
    ensures UserFlow(AdminOtpDone(m, jwt)) == UserFlow(m)
    ensures forall k :: k !in {TokenKey, PendingAdminEmailKey, AwaitingAdminOtpKey} ==> Get(AdminOtpDone(m, jwt), k) == Get(m, k)
  {
  }

  /** localStorage, as seen by the auth accessors. */
  class Store {
    var items: map<string, string>

    constructor (initial: map<string, string>)
      ensures items == initial
    {
      items := initial;
    }

    function GetToken(): (r: Option<string>)
      reads this
      ensures r.Some? <==> TokenKey in items
      ensures r.Some? ==> r.value == items[TokenKey]
    {
      Get(items, TokenKey)
    }

    /** `Boolean(getToken())`. */
    predicate IsAuthenticated()
      reads this
      ensures IsAuthenticated() <==> TokenKey in items && items[TokenKey] != ""
    {
      Truthy(GetToken())
    }

    method SaveToken(jwt: string)
      modifies this
      ensures items == old(items)[TokenKey := jwt]
      ensures GetToken() == Some(jwt) && (IsAuthenticated() <==> jwt != "")
    {
      items := items[TokenKey := jwt];
    }

    method RemoveToken()
      modifies this
      ensures items == old(items) - {TokenKey}
      ensures GetToken().None? && !IsAuthenticated()
    {
      items := items - {TokenKey};
    }

    function GetRole(): (r: string)
      reads this
      ensures r == "" <==> !Truthy(Get(items, RoleKey))
    {
      GetOrEmpty(items, RoleKey)
    }

    /** An empty or missing role writes nothing and deletes nothing. */
    method SetRole(role: Option<string>)
      modifies this
      ensures Truthy(role) ==> items == old(items)[RoleKey := role.value] && GetRole() == role.value
      ensures !Truthy(role) ==> items == old(items)
    {
      if Truthy(role) {
        items := items[RoleKey := role.value];
      }
    }

    method ClearRole()
      modifies this
      ensures items == old(items) - {RoleKey}
      ensures GetRole() == ""
    {
      items := items - {RoleKey};
    }

    // ------------------------------------------------------------ user flow

    function GetPendingEmail(): (r: string)
      reads this
      ensures r == "" <==> !Truthy(Get(items, PendingEmailKey))
    {
      GetOrEmpty(items, PendingEmailKey)
    }

    method SetPendingEmail(email: Option<string>)
      modifies this
      ensures Truthy(email) ==> items == old(items)[PendingEmailKey := email.value] && GetPendingEmail() == email.value
      ensures !Truthy(email) ==> items == old(items)
      ensures AdminFlow(items) == AdminFlow(old(items))
    {
      if Truthy(email) {
        items := items[PendingEmailKey := email.value];
      }
    }

    method ClearPendingEmail()
      modifies this
      ensures items == old(items) - {PendingEmailKey}
      ensures GetPendingEmail() == ""
      ensures AdminFlow(items) == AdminFlow(old(items))
    {
      items := items - {PendingEmailKey};
    }

    method SetAwaitingOtp(flag: bool)
      modifies this
      ensures flag ==> items == old(items)[AwaitingOtpKey := "1"]
      ensures !flag ==> items == old(items) - {AwaitingOtpKey}
      ensures IsAwaitingOtp() == flag
      ensures AdminFlow(items) == AdminFlow(old(items))
    {
      if flag {
        items := items[AwaitingOtpKey := "1"];
      } else {
        items := items - {AwaitingOtpKey};
      }
    }

    /** True only for the exact string '1'. */
    predicate IsAwaitingOtp()
      reads this
      ensures IsAwaitingOtp() <==> AwaitingOtpKey in items && items[AwaitingOtpKey] == "1"
    {
      Get(items, AwaitingOtpKey) == Some("1")
    }

    // ----------------------------------------------------------- admin flow

    function GetPendingAdminEmail(): (r: string)
      reads this
      ensures r == "" <==> !Truthy(Get(items, PendingAdminEmailKey))
    {
      GetOrEmpty(items, PendingAdminEmailKey)
    }

    method SetPendingAdminEmail(email: Option<string>)
      modifies this
      ensures Truthy(email) ==> items == old(items)[PendingAdminEmailKey := email.value] && GetPendingAdminEmail() == email.value
      ensures !Truthy(email) ==> items == old(items)
      ensures UserFlow(items) == UserFlow(old(items))
    {
      if Truthy(email) {
        items := items[PendingAdminEmailKey := email.value];
      }
    }

    method ClearPendingAdminEmail()
      modifies this
      ensures items == old(items) - {PendingAdminEmailKey}
      ensures GetPendingAdminEmail() == ""
      ensures UserFlow(items) == UserFlow(old(items))
    {
      items := items - {PendingAdminEmailKey};
    }

    method SetAwaitingAdminOtp(flag: bool)
      modifies this
      ensures flag ==> items == old(items)[AwaitingAdminOtpKey := "1"]
      ensures !flag ==> items == old(items) - {AwaitingAdminOtpKey}
      ensures IsAwaitingAdminOtp() == flag
      ensures UserFlow(items) == UserFlow(old(items))
    {
      if flag {
        items := items[AwaitingAdminOtpKey := "1"];
      } else {
        items := items - {AwaitingAdminOtpKey};
      }
    }

    predicate IsAwaitingAdminOtp()
      reads this
      ensures IsAwaitingAdminOtp() <==> AwaitingAdminOtpKey in items && items[AwaitingAdminOtpKey] == "1"
    {
      Get(items, AwaitingAdminOtpKey) == Some("1")
    }

    // ------------------------------------------------------------ utilities

    /** The six removals of `clearAllAuth`, in its order. */
    method ClearAllAuth()
      modifies this
      ensures items == ClearedAuth(old(items))
      ensures !IsAuthenticated() && GetRole() == "" && GetPendingEmail() == "" && !IsAwaitingOtp()
      ensures GetPendingAdminEmail() == "" && !IsAwaitingAdminOtp()
    {
      ghost var m := items;
      items := items - {TokenKey};
      items := items - {RoleKey};                 // clearRole()
      items := items - {PendingEmailKey};         // clearPendingEmail()
      items := items - {AwaitingOtpKey};          // setAwaitingOtp(false)
      items := items - {PendingAdminEmailKey};    // clearPendingAdminEmail()
      items := items - {AwaitingAdminOtpKey};     // setAwaitingAdminOtp(false)
      assert forall k :: k in items <==> k in m && k !in AuthKeys;
      assert items == m - AuthKeys;
    }

    /** `logout`: the server call (revoking the refresh token) may fail;
        either way the local auth state ends cleared. */
    method Logout(serverCallFailed: bool)
      modifies this
      ensures items == ClearedAuth(old(items))
    {
      ClearAllAuth();
    }
  }
}
