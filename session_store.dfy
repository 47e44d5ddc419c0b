/**
 * The session artifacts and `SessionManager` (scraping/auth/session_manager.py): a cookies
 * file and a metadata file (`session_info.json`) in one directory. The metadata fixes an
 * expiry window when the session is saved; validity depends on the metadata alone.
 * Timestamps are whole seconds and the current time is a parameter.
 */
module SessionStore {
  import opened Wrappers
  import opened Browser

  /** The saved `user_info` dictionary. */
  type UserInfo = map<string, string>

  /**
   * The metadata record. A field is `None` when the key is absent or its text is not an
   * ISO timestamp (`fromisoformat` raises) / not a dictionary.
   */
  datatype Meta = Meta(
    createdAt: Option<int>, expiresAt: Option<int>, lastActivity: Option<int>,
    userInfo: Option<UserInfo>)

  /** A JSON file: absent, present but not loadable, or holding a value. */
  datatype Artifact<T> = Missing | Unparsable | Present(content: T)

  /** The session directory; the authenticator and the manager share its cookies file. */
  class SessionFiles {
    var cookies: Artifact<seq<Cookie>>
    var info: Artifact<Meta>

    constructor (cookies: Artifact<seq<Cookie>>, info: Artifact<Meta>)
      ensures this.cookies == cookies && this.info == info
    {
      this.cookies := cookies;
      this.info := info;
    }
  }

  /** `settings.auth.session_timeout` when the configuration does not set it (settings.py). */
  const DefaultSessionTimeout: int := 3600

  /** The metadata `save_session` writes at time `now`. */
  function SavedMeta(now: int, timeout: int, userInfo: Option<UserInfo>): Meta {
    Meta(Some(now), Some(now + timeout), Some(now), Some(userInfo.GetOr(map[])))
  }

  /** `is_session_valid`: a loadable metadata file with an expiry not yet passed. */
  predicate Valid(info: Artifact<Meta>, now: int) {
    info.Present? && info.content.expiresAt.Some? && now <= info.content.expiresAt.value
  }

  /** The dictionary `load_session` returns. */
  datatype Loaded = Loaded(cookies: seq<Cookie>, info: Meta)

  /** `load_session`: nothing when invalid or when the cookies file does not load. */
  function Load(cookies: Artifact<seq<Cookie>>, info: Artifact<Meta>, now: int): Option<Loaded> {
    if !Valid(info, now) then None
    else
      match cookies
      case Missing => Some(Loaded([], info.content))
      case Unparsable => None
      case Present(c) => Some(Loaded(c, info.content))
  }

  /** The dictionary `get_session_status` returns. */
  datatype Status =
    | ExpiredOrMissing
    | StatusError
    | Active(createdAt: int, expiresAt: int, lastActivity: int, remaining: int, userInfo: UserInfo)

  /** `get_session_status`: a read-only projection of the metadata. */
  function SessionStatus(info: Artifact<Meta>, now: int): Status {
    if !Valid(info, now) then ExpiredOrMissing
    else
      var m := info.content;
      if m.createdAt.None? || m.lastActivity.None? then StatusError
      else
        var remaining := m.expiresAt.value - now;
        Active(m.createdAt.value, m.expiresAt.value, m.lastActivity.value,
          if remaining < 0 then 0 else remaining, m.userInfo.GetOr(map[]))
  }

  /**
   * How rewriting one file with `open(path, 'w')` and `json.dump` ends: it completes, `open`
   * raises before anything is truncated, or `json.dump` raises after the truncation (a value
   * it cannot serialise, a full disk), leaving a partial text that no longer loads.
   */
  datatype WriteOutcome = Completed | OpenFailed | DumpFailed

  /** The file after an attempt to write `value` into it. */
  function Overwrite<T>(before: Artifact<T>, value: T, w: WriteOutcome): Artifact<T> {
    match w
    case Completed => Present(value)
    case OpenFailed => before
    case DumpFailed => Unparsable
  }

  /**
   * `update_last_activity` on the metadata file: only a loadable file is read back and
   * rewritten, and that rewrite can fail like any other.
   */
  function Touch(info: Artifact<Meta>, now: int, w: WriteOutcome): Artifact<Meta> {
    match info
    case Present(m) => Overwrite(info, m.(lastActivity := Some(now)), w)
    case _ => info
  }

  /** A session saved at `saved` is valid exactly until `saved + timeout`, the boundary included. */
  lemma FixedWindow(saved: int, timeout: int, userInfo: Option<UserInfo>, now: int)
    ensures Valid(Present(SavedMeta(saved, timeout, userInfo)), now) <==> now <= saved + timeout
  {
  }

  /** Saving and then loading at the same instant returns the saved cookies and user info. */
  lemma SaveThenLoad(cookies: seq<Cookie>, timeout: int, userInfo: Option<UserInfo>, now: int)
    requires timeout >= 0
    ensures Load(Present(cookies), Present(SavedMeta(now, timeout, userInfo)), now).Some?
    ensures Load(Present(cookies), Present(SavedMeta(now, timeout, userInfo)), now).value.cookies == cookies
    ensures Load(Present(cookies), Present(SavedMeta(now, timeout, userInfo)), now).value.info.userInfo
         == Some(userInfo.GetOr(map[]))
  {
  }

  /** `load_session` yields data exactly when the session is valid and the cookies file loads. */
  lemma LoadCases(cookies: Artifact<seq<Cookie>>, info: Artifact<Meta>, now: int)
    ensures Load(cookies, info, now).Some? <==> Valid(info, now) && !cookies.Unparsable?
    ensures Load(cookies, info, now).Some? && cookies.Missing? ==> Load(cookies, info, now).value.cookies == []
    ensures Load(cookies, info, now).Some? ==> info.Present? && Load(cookies, info, now).value.info == info.content
  {
  }

  /**
   * The status is `expired_or_missing` exactly when the session is invalid; an active
   * status carries the remaining seconds `expires_at - now`, never negative.
   */
  lemma StatusAgreesWithValidity(info: Artifact<Meta>, now: int)
    ensures SessionStatus(info, now).ExpiredOrMissing? <==> !Valid(info, now)
    ensures SessionStatus(info, now).Active? ==>
      SessionStatus(info, now).remaining == info.content.expiresAt.value - now >= 0
  {
  }

  /** A fresh save reports an active status with the whole window remaining. */
  lemma SavedStatus(timeout: int, userInfo: Option<UserInfo>, now: int)
    requires timeout >= 0
    ensures SessionStatus(Present(SavedMeta(now, timeout, userInfo)), now)
         == Active(now, now + timeout, now, timeout, userInfo.GetOr(map[]))
  {
  }

  /**
   * A touch that does not truncate never extends (or shortens) the session: validity at
   * every instant is unchanged. A truncating one ends the session at every instant.
   */
  lemma TouchKeepsWindow(info: Artifact<Meta>, now: int, w: WriteOutcome, later: int)
    ensures w != DumpFailed ==> (Valid(Touch(info, now, w), later) <==> Valid(info, later))
    ensures w == DumpFailed && info.Present? ==> Touch(info, now, w) == Unparsable && !Valid(Touch(info, now, w), later)
    ensures info.Present? && w == Completed ==> Touch(info, now, w) == Present(info.content.(lastActivity := Some(now)))
    ensures !info.Present? || w == OpenFailed ==> Touch(info, now, w) == info
  {
  }

  /**
   * A save whose cookies write completes but whose metadata write is cut short leaves a
   * metadata file that does not load: the new cookies are never loaded and the status is
   * `expired_or_missing`, at every instant.
   */
  lemma TruncatedMetadataEndsSession(cookies: Artifact<seq<Cookie>>, before: Artifact<Meta>, m: Meta, now: int)
    ensures Load(cookies, Overwrite(before, m, DumpFailed), now).None?
    ensures SessionStatus(Overwrite(before, m, DumpFailed), now) == ExpiredOrMissing
  {
  }

  class SessionManager {
    const files: SessionFiles
    /** `settings.auth.session_timeout` in seconds. */
    const sessionTimeout: int

    constructor (files: SessionFiles, sessionTimeout: int)
      ensures this.files == files && this.sessionTimeout == sessionTimeout
    {
      this.files := files;
      this.sessionTimeout := sessionTimeout;
    }

    /**
     * `save_session`: the cookies first, then the metadata. A failed write raises; the
     * metadata is only written once the cookies are.
     */
    method SaveSession(cookies: seq<Cookie>, userInfo: Option<UserInfo>, now: int,
                       cookiesWrite: WriteOutcome, infoWrite: WriteOutcome)
      returns (raised: bool)
      modifies files
      ensures raised <==> cookiesWrite != Completed || infoWrite != Completed
      ensures files.cookies == Overwrite(old(files.cookies), cookies, cookiesWrite)
      ensures files.info ==
        if cookiesWrite == Completed then Overwrite(old(files.info), SavedMeta(now, sessionTimeout, userInfo), infoWrite)
        else old(files.info)
      ensures cookiesWrite == Completed && infoWrite == Completed && sessionTimeout >= 0 ==>
        Load(files.cookies, files.info, now) == Some(Loaded(cookies, SavedMeta(now, sessionTimeout, userInfo)))
      ensures cookiesWrite == Completed && infoWrite == DumpFailed ==>
        forall t :: Load(files.cookies, files.info, t).None? && SessionStatus(files.info, t) == ExpiredOrMissing
    {
      files.cookies := Overwrite(files.cookies, cookies, cookiesWrite);
      if cookiesWrite != Completed {
        return true;
      }
      files.info := Overwrite(files.info, SavedMeta(now, sessionTimeout, userInfo), infoWrite);
      raised := infoWrite != Completed;
    }

    /** `load_session`: reads both files and writes nothing. */
    method LoadSession(now: int) returns (r: Option<Loaded>)
      ensures r == Load(files.cookies, files.info, now)
    {
      var valid := IsSessionValid(now);
      if !valid {
        return None;
      }
      var cookies: seq<Cookie> := [];
      match files.cookies {
        case Missing =>
        case Unparsable => return None;
        case Present(c) => cookies := c;
      }
      r := Some(Loaded(cookies, files.info.content));
    }

    /** `is_session_valid`: reads the metadata and writes nothing. */
    method IsSessionValid(now: int) returns (valid: bool)
      ensures valid == Valid(files.info, now)
    {
      match files.info {
        case Missing => return false;
        case Unparsable => return false;
        case Present(m) =>
          if m.expiresAt.None? {
            return false;
          }
          valid := now <= m.expiresAt.value;
      }
    }

    /**
     * `update_last_activity`: a read-modify-write of the metadata's `last_activity`. Its
     * errors are swallowed, but a rewrite cut short leaves the metadata unloadable.
     */
    method UpdateLastActivity(now: int, write: WriteOutcome)
      modifies files`info
      ensures files.info == Touch(old(files.info), now, write)
      ensures write != DumpFailed ==> forall t :: Valid(files.info, t) <==> Valid(old(files.info), t)
      ensures write == DumpFailed && old(files.info).Present? ==> forall t :: !Valid(files.info, t)
    {
      if files.info.Present? {
        files.info := Overwrite(files.info, files.info.content.(lastActivity := Some(now)), write);
      }
    }

    /** `clear_session`: removes whichever files exist; the result does not depend on them. */
    method ClearSession()
      modifies files
      ensures files.cookies == Missing && files.info == Missing
      ensures forall t :: !Valid(files.info, t) && SessionStatus(files.info, t) == ExpiredOrMissing
    {
      files.cookies := Missing;
      files.info := Missing;
    }

    /** `get_session_status`: reads the metadata and writes nothing. */
    method GetSessionStatus(now: int) returns (status: Status)
      ensures status == SessionStatus(files.info, now)
    {
      var valid := IsSessionValid(now);
      if !valid {
        return ExpiredOrMissing;
      }
      var m := files.info.content;
      if m.createdAt.None? || m.lastActivity.None? {
        return StatusError;
      }
      var remaining := m.expiresAt.value - now;
      status := Active(m.createdAt.value, m.expiresAt.value, m.lastActivity.value,
        if remaining < 0 then 0 else remaining, m.userInfo.GetOr(map[]));
    }
  }
}
