/** The browser side of a municipal login: the session kept in local storage under
    `municipalSession`, valid for 24 hours after login. Reading a session that has expired
    or cannot be parsed removes it from storage. */
module MunicipalAuth {
  import opened Http

  const MsPerHour := 60 * 60 * 1000
  /** 24 hours, in milliseconds. */
  const SessionLifetimeMs := 24 * MsPerHour

  /** `loginTime` is in milliseconds since the epoch. */
  datatype MunicipalSession = MunicipalSession(municipalId: string, nagarNigam: string, name: string, loginTime: int)

  /** What local storage holds under `municipalSession`: an empty string, text that does not
      parse as a session, or a session. */
  datatype Stored = Blank | Unparseable | Parsed(session: MunicipalSession)

  /** More than 24 hours have passed since login. */
  predicate Expired(s: MunicipalSession, now: int)
  {
    now - s.loginTime > SessionLifetimeMs
  }

  /** The handler's test, `hoursDiff > 24` with the difference divided into hours, is the
      same as comparing milliseconds with 24 hours' worth. */
  lemma ExpiredInHours(s: MunicipalSession, now: int)
    ensures Expired(s, now) <==> (now - s.loginTime) as real / MsPerHour as real > 24.0
  {
  }

  /** The session a read returns. */
  function CurrentSession(hasWindow: bool, entry: Option<Stored>, now: int): Option<MunicipalSession>
  {
    if !hasWindow then None
    else
      match entry
      case Some(Parsed(s)) => if Expired(s, now) then None else Some(s)
      case _ => None
  }

  /** What storage holds after a read: an expired or unparseable session is removed. */
  function EntryAfterRead(hasWindow: bool, entry: Option<Stored>, now: int): Option<Stored>
  {
    if !hasWindow then entry
    else
      match entry
      case Some(Unparseable) => None
      case Some(Parsed(s)) => if Expired(s, now) then None else entry
      case _ => entry
  }

  /** A returned session is at most 24 hours old, one exactly 24 hours old is still
      returned, and reading again at the same instant gives the same answer and leaves
      storage as the first read left it. */
  lemma ReadSpec(hasWindow: bool, entry: Option<Stored>, now: int)
    ensures var s := CurrentSession(hasWindow, entry, now);
            s.Some? ==> entry == Some(Parsed(s.value)) && now - s.value.loginTime <= SessionLifetimeMs
    ensures hasWindow && entry.Some? && entry.value.Parsed? && now == entry.value.session.loginTime + SessionLifetimeMs
            ==> CurrentSession(hasWindow, entry, now) == Some(entry.value.session)
    ensures var after := EntryAfterRead(hasWindow, entry, now);
            && CurrentSession(hasWindow, after, now) == CurrentSession(hasWindow, entry, now)
            && EntryAfterRead(hasWindow, after, now) == after
  {
  }

  /** Local storage as far as the municipal session goes. `hasWindow` is false when the
      code runs on the server, where there is no storage to read. */
  class SessionStorage {
    const hasWindow: bool
    var entry: Option<Stored>

    constructor (hasWindow: bool, entry: Option<Stored>)
      ensures this.hasWindow == hasWindow && this.entry == entry
    {
      this.hasWindow := hasWindow;
      this.entry := entry;
    }

    /** `getMunicipalSession`, at the instant `now`. */
    method GetMunicipalSession(now: int) returns (s: Option<MunicipalSession>)
      modifies this
      ensures s == CurrentSession(hasWindow, old(entry), now)
      ensures entry == EntryAfterRead(hasWindow, old(entry), now)
      ensures !hasWindow ==> entry == old(entry)
      ensures old(entry) == None || old(entry) == Some(Blank) ==> s == None && entry == old(entry)
      ensures old(entry) == Some(Unparseable) && hasWindow ==> s == None && entry == None
      ensures s.Some? ==> entry == old(entry) && !Expired(s.value, now)
    {
      if !hasWindow {
        return None;
      }
      match entry
      case None =>
        s := None;
      case Some(Blank) =>
        s := None;
      case Some(Unparseable) =>
        entry := None;
        s := None;
      case Some(Parsed(session)) =>
        if Expired(session, now) {
          entry := None;
          s := None;
        } else {
          s := Some(session);
        }
    }

    /** `clearMunicipalSession`. */
    method ClearMunicipalSession()
      modifies this
      ensures hasWindow ==> entry == None
      ensures !hasWindow ==> entry == old(entry)
    {
      if hasWindow {
        entry := None;
      }
    }

    /** `isMunicipalAuthenticated`: a read, with the read's effect on storage. */
    method IsMunicipalAuthenticated(now: int) returns (b: bool)
      modifies this
      ensures b <==> CurrentSession(hasWindow, old(entry), now).Some?
      ensures b <==> hasWindow && old(entry).Some? && old(entry).value.Parsed?
                     && !Expired(old(entry).value.session, now)
      ensures entry == EntryAfterRead(hasWindow, old(entry), now)
    {
      var s := GetMunicipalSession(now);
      b := s != None;
    }
  }
}
