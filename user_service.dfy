/** The user service of `UserService.js`: a store of user records keyed by
    user id, with the lookups built on it and two stateless decisions
    (session validity and display name). JavaScript truthiness is spelled
    out: a missing field is `None`, an empty string counts as absent. */
module UserService {
  import opened Wrappers

  /** A value in a user's permission table: `index.js` stores booleans, and
      the lookup's fallback is an (empty) array. Arrays are always truthy in
      JavaScript, even empty ones; a boolean is truthy when it is `true`. */
  datatype Grant = Flag(on: bool) | Actions(names: seq<string>)

  predicate Truthy(g: Grant) {
    match g
    case Flag(on) => on
    case Actions(_) => true
  }

  /** What `getUserPermissions` returns when access is not granted: `[]`. */
  const NoActions: Grant := Actions([])

  /** A cached user record; `P` is the opaque profile payload. `isActive`
      is false when the field is missing. */
  datatype User<P> = User(
    profile: Option<P>,
    isActive: bool,
    permissions: Option<map<string, Grant>>,
    nickname: Option<string>,
    firstName: Option<string>,
    lastName: Option<string>,
    email: Option<string>)

  /** The exception a lookup of a missing user raises. */
  datatype Error = TypeError

  /** A session: `e` its expiry and `c` its creation time, in milliseconds. */
  datatype Session = Session(e: Option<int>, c: Option<int>)

  /** A string field is truthy when present and non-empty. */
  predicate Present(s: Option<string>) {
    s.Some? && s.value != ""
  }

  /** How a template literal renders an optional string. */
  function Render(s: Option<string>): string {
    if s.Some? then s.value else "undefined"
  }

  /** `s.split(sep)[0]`: the part of `s` before the first `sep`, or all of
      `s` when it has none. */
  function PrefixBefore(s: string, sep: char): (r: string)
    ensures r <= s
    ensures sep !in r
    ensures |r| < |s| ==> s[|r|] == sep
    decreases |s|
  {
    if s == [] then []
    else if s[0] == sep then []
    else [s[0]] + PrefixBefore(s[1..], sep)
  }

  /** The three properties of `PrefixBefore` determine its result. */
  lemma PrefixBeforeUnique(s: string, sep: char, r: string)
    requires r <= s && sep !in r && (|r| < |s| ==> s[|r|] == sep)
    ensures r == PrefixBefore(s, sep)
  {
  }

  /** `validateSession(s, t)` at time `now`: the session has a non-zero
      expiry still in the future, a creation time, and was created less than
      `t` seconds ago. */
  function ValidateSession(s: Session, t: int, now: int): (r: bool)
    ensures r <==> s.e.Some? && s.e.value != 0 && now < s.e.value
                   && s.c.Some? && now - s.c.value < t * 1000
  {
    var d := now;
    var x := t * 1000;
    if s.e.Some? && s.e.value != 0 then
      if s.e.value > d then
        if s.c.Some? && d - s.c.value < x then true else false
      else false
    else false
  }

  /** A session valid at some time was valid at every earlier time. */
  lemma ValidEarlier(s: Session, t: int, now: int, earlier: int)
    requires ValidateSession(s, t, now) && earlier <= now
    ensures ValidateSession(s, t, earlier)
  {
  }

  /** A valid session lies inside both windows: its age is below `t`
      seconds and its expiry is ahead of `now`; so a non-positive `t` admits
      no session created at or before `now`. */
  lemma ValidWithinWindows(s: Session, t: int, now: int)
    requires ValidateSession(s, t, now)
    ensures now < s.e.value && now - t * 1000 < s.c.value
    ensures t <= 0 ==> now < s.c.value
  {
  }

  /** `formatDisplayName`: the first of nickname, "firstName lastName",
      the email's local part, or "Anonymous". */
  function FormatDisplayName<P>(u: User<P>): (r: string)
    ensures Present(u.nickname) ==> r == u.nickname.value
    ensures !Present(u.nickname) && Present(u.firstName) ==>
              r == u.firstName.value + " " + Render(u.lastName)
    ensures !Present(u.nickname) && !Present(u.firstName) && Present(u.email) ==>
              r <= u.email.value && '@' !in r
              && (|r| < |u.email.value| ==> u.email.value[|r|] == '@')
    ensures !Present(u.nickname) && !Present(u.firstName) && !Present(u.email) ==>
              r == "Anonymous"
  {
    if Present(u.nickname) then u.nickname.value
    else if Present(u.firstName) then u.firstName.value + " " + Render(u.lastName)
    else if Present(u.email) then PrefixBefore(u.email.value, '@')
    else "Anonymous"
  }

  /** The display name is empty only when it falls through to an email that
      starts with '@'. */
  lemma DisplayNameEmpty<P>(u: User<P>)
    ensures FormatDisplayName(u) == "" <==>
              !Present(u.nickname) && !Present(u.firstName) && Present(u.email)
              && u.email.value[0] == '@'
  {
  }

  /** The four display-name cases of the service's tests. */
  lemma DisplayNameExamples()
    ensures FormatDisplayName(User<int>.User(None, false, None, Some("CoolUser"), Some("John"), Some("Doe"), None))
            == "CoolUser"
    ensures FormatDisplayName(User<int>.User(None, false, None, None, Some("John"), Some("Doe"), None))
            == "John Doe"
    ensures FormatDisplayName(User<int>.User(None, false, None, None, None, None, Some("john@example.com")))
            == "john"
    ensures FormatDisplayName(User<int>.User(None, false, None, None, None, None, None))
            == "Anonymous"
  {
    PrefixBeforeUnique("john@example.com", '@', "john");
  }

  /** The user store: the source's module-level `userCache` Map, held by
      one instance. */
  class UserStore<P> {
    var users: map<string, User<P>>

    constructor ()
      ensures users == map[]
    {
      users := map[];
    }

    /** Access to `resource` is granted when the user is cached and active,
        has a permission table, and the table's entry for `resource` is
        truthy. */
    predicate Granted(userId: string, resource: string)
      reads this
    {
      && userId in users
      && users[userId].isActive
      && users[userId].permissions.Some?
      && resource in users[userId].permissions.value
      && Truthy(users[userId].permissions.value[resource])
    }

    /** `getUserProfile`: the cached user's profile field, or the TypeError
        the source throws when it dereferences a missing user. */
    function GetUserProfile(userId: string): (r: Result<Option<P>, Error>)
      reads this
      ensures r.Ok? <==> userId in users
      ensures r.Ok? ==> r.value == users[userId].profile
      ensures r.Err? ==> r.error == TypeError
    {
      if userId in users then Ok(users[userId].profile) else Err(TypeError)
    }

    /** `getUserPermissions`: the entry for `resource` when access is
        granted, the empty list otherwise; a falsy entry is never returned. */
    function GetUserPermissions(userId: string, resource: string): (r: Grant)
      reads this
      ensures Granted(userId, resource) ==> r == users[userId].permissions.value[resource]
      ensures !Granted(userId, resource) ==> r == NoActions
      ensures Truthy(r)
    {
      if userId in users then
        var user := users[userId];
        if user.isActive then
          if user.permissions.Some? then
            if resource in user.permissions.value && Truthy(user.permissions.value[resource]) then
              user.permissions.value[resource]
            else NoActions
          else NoActions
        else NoActions
      else NoActions
    }

    /** `cacheUser`: records `userData` under `userId`, replacing any
        previous record; other users are unchanged. */
    method CacheUser(userId: string, userData: User<P>)
      modifies this
      ensures users == old(users)[userId := userData]
      ensures GetUserProfile(userId) == Ok(userData.profile)
    {
      users := users[userId := userData];
    }

    /** `clearUserCache`: forgets `userId` if present; other users are
        unchanged. */
    method ClearUserCache(userId: string)
      modifies this
      ensures users == old(users) - {userId}
      ensures GetUserProfile(userId) == Err(TypeError)
    {
      users := users - {userId};
    }
  }

  /** Caching one user changes no lookup for any other user. */
  method CacheUserIsolated<P>(store: UserStore<P>, userId: string, userData: User<P>,
                              other: string, resource: string)
    returns (profileBefore: Result<Option<P>, Error>, profileAfter: Result<Option<P>, Error>,
             grantBefore: Grant, grantAfter: Grant)
    requires other != userId
    modifies store
    ensures profileBefore == profileAfter && grantBefore == grantAfter
  {
    profileBefore := store.GetUserProfile(other);
    grantBefore := store.GetUserPermissions(other, resource);
    store.CacheUser(userId, userData);
    profileAfter := store.GetUserProfile(other);
    grantAfter := store.GetUserPermissions(other, resource);
  }

  /** Clearing twice leaves the store as clearing once does, and neither
      call fails when the user is absent. */
  method ClearTwice<P>(store: UserStore<P>, userId: string)
    modifies store
    ensures store.users == old(store.users) - {userId}
  {
    store.ClearUserCache(userId);
    ghost var once := store.users;
    store.ClearUserCache(userId);
    assert store.users == once;
  }

  /** The service's profile tests: a cached user's profile comes back, and
      looking up an unknown user raises a TypeError. */
  method ProfileExamples() returns (hit: Result<Option<(string, string)>, Error>,
                                     miss: Result<Option<(string, string)>, Error>)
    ensures hit == Ok(Some(("Test", "test@test.com")))
    ensures miss == Err(TypeError)
  {
    var store := new UserStore<(string, string)>();
    store.ClearUserCache("test-user");
    var userData := User(Some(("Test", "test@test.com")), false, None, None, None, None, None);
    store.CacheUser("test-user", userData);
    hit := store.GetUserProfile("test-user");
    miss := store.GetUserProfile("non-existent-user");
  }
}
