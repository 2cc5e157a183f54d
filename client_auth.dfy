/**
 * The client's auth store: a logged-in flag with the cached email and password, read from
 * the browser's local storage when the application starts and written back by `login` and
 * `logout`. Local storage is modelled as a string-to-string map.
 */
module ClientAuth {
  import opened Wrappers

  const LoggedKey: string := "user_logged"
  const EmailKey: string := "user_email"
  const PasswordKey: string := "user_password"

  /** The in-memory state of the store. */
  datatype Session = Session(isAuthenticated: bool, email: string, password: string)

  const LoggedOut: Session := Session(false, "", "")

  /** `localStorage.getItem(key)`; `None` is `null`. */
  function Lookup(items: map<string, string>, key: string): Option<string> {
    if key in items then Some(items[key]) else None
  }

  /** The state the store starts in, read from local storage. */
  function Restore(items: map<string, string>): (s: Session)
    ensures s.isAuthenticated <==> LoggedKey in items && items[LoggedKey] == "true"
    ensures s.email == (if EmailKey in items then items[EmailKey] else "")
    ensures s.password == (if PasswordKey in items then items[PasswordKey] else "")
  {
    Session(
      Lookup(items, LoggedKey) == Some("true"),
      Lookup(items, EmailKey).GetOr(""),
      Lookup(items, PasswordKey).GetOr(""))
  }

  /** Local storage once `login(email, password)` has written its three keys. */
  function LoginItems(items: map<string, string>, email: string, password: string): map<string, string> {
    items[LoggedKey := "true"][EmailKey := email][PasswordKey := password]
  }

  /** Local storage once `logout()` has removed its three keys. */
  function LogoutItems(items: map<string, string>): map<string, string> {
    items - {LoggedKey, EmailKey, PasswordKey}
  }

  /** Login writes its three keys and leaves every other key as it was. */
  lemma LoginFrame(items: map<string, string>, email: string, password: string)
    ensures var after := LoginItems(items, email, password);
      && after.Keys == items.Keys + {LoggedKey, EmailKey, PasswordKey}
      && after[LoggedKey] == "true" && after[EmailKey] == email && after[PasswordKey] == password
      && forall k :: k in items && k !in {LoggedKey, EmailKey, PasswordKey} ==> after[k] == items[k]
  {
  }

  /** Logout removes its three keys and leaves every other key as it was; doing it twice is doing it once. */
  lemma LogoutFrame(items: map<string, string>)
    ensures var after := LogoutItems(items);
      && after.Keys == items.Keys - {LoggedKey, EmailKey, PasswordKey}
      && (forall k :: k in after ==> after[k] == items[k])
      && LogoutItems(after) == after
  {
  }

  /** Reloading after a login restores the logged-in state with the same credentials. */
  lemma RestoreAfterLogin(items: map<string, string>, email: string, password: string)
    ensures Restore(LoginItems(items, email, password)) == Session(true, email, password)
  {
  }

  /** Reloading after a logout restores the logged-out state, whatever was stored before. */
  lemma RestoreAfterLogout(items: map<string, string>)
    ensures Restore(LogoutItems(items)) == LoggedOut
  {
  }

  /** Only the exact text `"true"` counts as logged in: `"True"` or `"1"` do not. */
  lemma OnlyTrueIsLoggedIn(items: map<string, string>, flag: string)
    requires flag != "true"
    ensures !Restore(items[LoggedKey := flag]).isAuthenticated
  {
  }

  /** The browser's local storage. */
  class LocalStorage {
    var items: map<string, string>

    constructor (initial: map<string, string>)
      ensures items == initial
    {
      items := initial;
    }

    function GetItem(key: string): (r: Option<string>)
      reads this
      ensures r.Some? <==> key in items
      ensures r.Some? ==> r.value == items[key]
    {
      Lookup(items, key)
    }

    method SetItem(key: string, value: string)
      modifies this
      ensures items == old(items)[key := value]
    {
      items := items[key := value];
    }

    method RemoveItem(key: string)
      modifies this
      ensures items == old(items) - {key}
    {
      items := items - {key};
    }
  }

  /** `authStore`. */
  class AuthStore {
    var isAuthenticated: bool
    var email: string
    var password: string
    const storage: LocalStorage

    function State(): Session
      reads this
    {
      Session(isAuthenticated, email, password)
    }

    /** The in-memory state is what local storage says. */
    ghost predicate Mirrored()
      reads this, storage
    {
      State() == Restore(storage.items)
    }

    /** The store as the application creates it, from what local storage holds. */
    constructor (storage: LocalStorage)
      ensures this.storage == storage
      ensures State() == Restore(storage.items)
      ensures Mirrored()
    {
      this.storage := storage;
      isAuthenticated := storage.GetItem(LoggedKey) == Some("true");
      email := storage.GetItem(EmailKey).GetOr("");
      password := storage.GetItem(PasswordKey).GetOr("");
    }

    method Login(email: string, password: string)
      modifies this, storage
      ensures State() == Session(true, email, password)
      ensures storage.items == LoginItems(old(storage.items), email, password)
      ensures Mirrored()
    {
      this.isAuthenticated := true;
      this.email := email;
      this.password := password;
      storage.SetItem(LoggedKey, "true");
      storage.SetItem(EmailKey, email);
      storage.SetItem(PasswordKey, password);
    }

    method Logout()
      modifies this, storage
      ensures State() == LoggedOut
      ensures storage.items == LogoutItems(old(storage.items))
      ensures Mirrored()
    {
      this.isAuthenticated := false;
      this.email := "";
      this.password := "";
      storage.RemoveItem(LoggedKey);
      storage.RemoveItem(EmailKey);
      storage.RemoveItem(PasswordKey);
      assert storage.items == LogoutItems(old(storage.items));
    }
  }

  /** A login followed by a page reload: the new store starts logged in with the same credentials. */
  method ReloadAfterLogin(store: AuthStore, email: string, password: string) returns (reloaded: AuthStore)
    modifies store, store.storage
    ensures reloaded.State() == Session(true, email, password) == store.State()
    ensures reloaded.storage == store.storage
  {
    store.Login(email, password);
    reloaded := new AuthStore(store.storage);
    RestoreAfterLogin(old(store.storage.items), email, password);
  }

  /** A logout followed by a page reload: the new store starts logged out. */
  method ReloadAfterLogout(store: AuthStore) returns (reloaded: AuthStore)
    modifies store, store.storage
    ensures reloaded.State() == LoggedOut == store.State()
    ensures reloaded.storage == store.storage
  {
    store.Logout();
    reloaded := new AuthStore(store.storage);
    RestoreAfterLogout(old(store.storage.items));
  }
}
