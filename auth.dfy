/**
 * The sign-in rule of `src/contexts/AuthContext.tsx`: from the buyer codes
 * read from the order table, a username and a password, it decides between
 * administrator, client and rejection, and builds the signed-in user. The
 * provider's `user` and `isLoading` state is the class `AuthState`.
 */
module Auth {
  import opened Wrappers
  import opened Lists
  import opened Text
  import opened Types

  /** JavaScript truthiness of a `Buyercode` column value: present and non-empty. */
  predicate Truthy(code: Option<string>)
  {
    code.Some? && code.value != ""
  }

  /** The truthy buyer codes of the rows, in row order. */
  function TruthyCodes(rows: seq<Option<string>>): (codes: seq<string>)
    ensures forall c :: c in codes <==> Some(c) in rows && c != ""
  {
    if rows == [] then []
    else (if Truthy(rows[0]) then [rows[0].value] else []) + TruthyCodes(rows[1..])
  }

  /**
   * `validClientCodes`: each truthy buyer code once; no codes when the query
   * returned no data (`rows` is None).
   */
  function ValidClientCodes(rows: Option<seq<Option<string>>>): (codes: seq<string>)
    ensures rows.None? ==> codes == []
    ensures Distinct(codes)
    ensures forall c :: c in codes <==> rows.Some? && Some(c) in rows.value && c != ""
  {
    match rows
    case None => []
    case Some(rs) => Dedup(TruthyCodes(rs))
  }

  /** `isAdmin`: the username is "admin" in any case and the password is exactly "admin123". */
  predicate IsAdmin(username: string, password: string)
  {
    Lower(username) == "admin" && password == "admin123"
  }

  /** `isValidClient`: some code equals the username, ignoring case. */
  predicate IsValidClient(codes: seq<string>, username: string)
  {
    exists code :: code in codes && code != "" && Lower(code) == Lower(username)
  }

  /** `isValidPassword`. */
  predicate IsValidPassword(username: string, password: string)
  {
    password == "password" || password == "PASSWORD" || IsAdmin(username, password)
  }

  /** `authenticatedUser` for an administrator. */
  function AdminUser(username: string): User
  {
    User("admin1", username, "TC", "System Administrator", Some("admin"))
  }

  /** `authenticatedUser` for a client: the username doubles as the client code. */
  function ClientUser(username: string): User
  {
    User("user_" + username, username, username, username + " Client", Some("client"))
  }

  /** The decision of `login`: the user to sign in, or None to reject. */
  function Authenticate(codes: seq<string>, username: string, password: string): Option<User>
  {
    var isAdmin := IsAdmin(username, password);
    if (IsValidClient(codes, username) && IsValidPassword(username, password)) || isAdmin then
      Some(if isAdmin then AdminUser(username) else ClientUser(username))
    else None
  }

  /** The administrator is accepted, whatever the buyer codes are. */
  lemma AdminAcceptedWithoutCodes(codes: seq<string>, username: string, password: string)
    requires Lower(username) == "admin" && password == "admin123"
    ensures Authenticate(codes, username, password) == Some(AdminUser(username))
  {
  }

  /**
   * Anyone else is accepted exactly when some truthy buyer code equals the
   * username ignoring case and the password is "password" or "PASSWORD"; the
   * user is then a client named after the username.
   */
  lemma NonAdminAcceptedIffClient(rows: Option<seq<Option<string>>>, username: string, password: string)
    requires !IsAdmin(username, password)
    ensures Authenticate(ValidClientCodes(rows), username, password).Some? <==>
      (rows.Some? && exists code :: Truthy(code) && code in rows.value && Lower(code.value) == Lower(username)) &&
      (password == "password" || password == "PASSWORD")
    ensures Authenticate(ValidClientCodes(rows), username, password).Some? ==>
      Authenticate(ValidClientCodes(rows), username, password) == Some(ClientUser(username))
  {
    var codes := ValidClientCodes(rows);
    if rows.Some? && exists code :: Truthy(code) && code in rows.value && Lower(code.value) == Lower(username) {
      var code :| Truthy(code) && code in rows.value && Lower(code.value) == Lower(username);
      assert code.value in codes;
    }
    if IsValidClient(codes, username) {
      var c :| c in codes && c != "" && Lower(c) == Lower(username);
      assert Truthy(Some(c)) && Some(c) in rows.value;
    }
  }

  /** The signed-in user's role is "admin" exactly for the administrator login. */
  lemma RoleReflectsLogin(codes: seq<string>, username: string, password: string)
    requires Authenticate(codes, username, password).Some?
    ensures Authenticate(codes, username, password).value.role == Some("admin") <==> IsAdmin(username, password)
    ensures Authenticate(codes, username, password).value.username == username
  {
  }

  /** "Admin" with "password" is signed in as a client when "admin" is a buyer code, and rejected when it is not. */
  lemma AdminNameWithClientPassword()
    ensures Authenticate(["admin"], "Admin", "password") == Some(ClientUser("Admin"))
    ensures Authenticate([], "Admin", "password") == None
  {
    assert Lower("admin") == Lower("Admin");
  }

  /** The state the authentication provider keeps. */
  class AuthState {
    var user: Option<User>
    var isLoading: bool

    /** The provider before the stored session is read. */
    constructor ()
      ensures user == None && isLoading
    {
      user := None;
      isLoading := true;
    }

    /**
     * `login`, with `rows` standing for the `Buyercode` column the query
     * returned (None when it returned no data).
     */
    method Login(rows: Option<seq<Option<string>>>, username: string, password: string) returns (ok: bool)
      modifies this
      ensures !isLoading
      ensures ok <==> Authenticate(ValidClientCodes(rows), username, password).Some?
      ensures user == if ok then Authenticate(ValidClientCodes(rows), username, password) else old(user)
    {
      isLoading := true;
      var validClientCodes := ValidClientCodes(rows);
      var decision := Authenticate(validClientCodes, username, password);
      if decision.Some? {
        user := decision;
        isLoading := false;
        return true;
      } else {
        isLoading := false;
        return false;
      }
    }

    /** `logout`: nobody is signed in afterwards. */
    method Logout()
      modifies this`user
      ensures user == None
    {
      user := None;
    }
  }
}
