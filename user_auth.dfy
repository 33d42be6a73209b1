/** The user profile record and its guarded updates: start-up, login from
    a scanned code, profile edits with range checks, and the built-in demo
    profile. */
module UserAuth {
  import opened Common

  datatype Option<T> = None | Some(value: T)

  /** `gk_user_info_t`: the id and name are C strings held in 64- and
      32-byte buffers, so at most 63 and 31 characters. */
  datatype UserInfo = UserInfo(
    userId: string, username: string,
    height: int, weight: int, gender: int,
    isLoggedIn: bool)

  const USER_ID_MAX := 63
  const USERNAME_MAX := 31

  /** The zeroed record: empty strings, zero numbers, logged out. */
  const BLANK := UserInfo("", "", 0, 0, 0, false)

  /** The demo profile `gk_set_default_user_info` installs. */
  const DEFAULT_USER := UserInfo("default_user", "Demo User", 175, 70, 0, true)

  /** The accepted ranges: height in cm, weight in kg, gender 0 or 1. */
  predicate HeightOk(height: int) { 100 <= height <= 220 }
  predicate WeightOk(weight: int) { 30 <= weight <= 200 }
  predicate GenderOk(gender: int) { 0 <= gender <= 1 }

  /** The verdict of `gk_user_update_info`'s guards, checked in the order
      logged in, height, weight, gender: the first failing guard decides
      the code. */
  function UpdateVerdict(info: UserInfo, height: int, weight: int, gender: int): (rc: Status)
    ensures rc == Ok <==> info.isLoggedIn && HeightOk(height) && WeightOk(weight) && GenderOk(gender)
    ensures rc == ComError <==> !info.isLoggedIn
    ensures rc == InvalidParm <==>
      info.isLoggedIn && !(HeightOk(height) && WeightOk(weight) && GenderOk(gender))
  {
    if !info.isLoggedIn then ComError
    else if height < 100 || height > 220 then InvalidParm
    else if weight < 30 || weight > 200 then InvalidParm
    else if gender < 0 || gender > 1 then InvalidParm
    else Ok
  }

  /** The demo profile passes every guard of a profile update, with its
      own values and with any other in-range values. */
  lemma DefaultProfileIsValid(height: int, weight: int, gender: int)
    ensures UpdateVerdict(DEFAULT_USER, DEFAULT_USER.height, DEFAULT_USER.weight, DEFAULT_USER.gender) == Ok
    ensures HeightOk(height) && WeightOk(weight) && GenderOk(gender) ==>
      UpdateVerdict(DEFAULT_USER, height, weight, gender) == Ok
  {
  }

  /** A logged-out record rejects every update as not logged in, even
      one whose values are all out of range. */
  lemma LoggedOutRejectsAll(info: UserInfo, height: int, weight: int, gender: int)
    requires !info.isLoggedIn
    ensures UpdateVerdict(info, height, weight, gender) == ComError
  {
  }

  /** The first `max` characters of `s`, as `strncpy` into a buffer of
      `max + 1` bytes leaves them. */
  function Truncate(s: string, max: nat): (t: string)
    ensures |t| == if |s| <= max then |s| else max
    ensures t <= s
    ensures |s| <= max ==> t == s
  {
    if |s| <= max then s else s[..max]
  }

  /** The fields a login reads from the parsed code. */
  predicate HasLoginFields(fields: map<string, string>)
  {
    "user_id" in fields && "username" in fields && "token" in fields
  }

  /** The record after a successful login: id and name copied, truncated
      to their buffers, logged in; height, weight and gender kept. */
  function LoggedIn(info: UserInfo, fields: map<string, string>): (r: UserInfo)
    requires HasLoginFields(fields)
    ensures r.isLoggedIn
    ensures r.userId <= fields["user_id"] && |r.userId| <= USER_ID_MAX
    ensures r.username <= fields["username"] && |r.username| <= USERNAME_MAX
    ensures r.height == info.height && r.weight == info.weight && r.gender == info.gender
  {
    info.(userId := Truncate(fields["user_id"], USER_ID_MAX),
          username := Truncate(fields["username"], USERNAME_MAX),
          isLoggedIn := true)
  }

  /** A short id and name are stored unchanged. */
  lemma LoginKeepsShortNames(info: UserInfo, fields: map<string, string>)
    requires HasLoginFields(fields)
    requires |fields["user_id"]| <= USER_ID_MAX && |fields["username"]| <= USERNAME_MAX
    ensures LoggedIn(info, fields).userId == fields["user_id"]
    ensures LoggedIn(info, fields).username == fields["username"]
  {
  }

  /** The module's static `g_user_info`. */
  class UserStore {
    var info: UserInfo

    /** The zero-initialised static record. */
    constructor ()
      ensures info == BLANK
    {
      info := BLANK;
    }

    /** `gk_user_auth_init`: the record is zeroed and logged out. */
    method Init() returns (rc: Status)
      modifies this
      ensures rc == Ok && info == BLANK
    {
      info := BLANK;
      rc := Ok;
    }

    /** `gk_user_login`. `qr` is the scanned text, `None` for a null
        pointer; `parse` stands for the JSON parser and yields the
        object's string members, or `None` when the text is not JSON.
        Null or empty text and a missing member are invalid parameters, a
        parse failure has its own code; on any failure the record is
        untouched. */
    method Login(qr: Option<string>, parse: string -> Option<map<string, string>>)
      returns (rc: Status)
      modifies this
      ensures rc == InvalidParm <==>
        qr.None? || qr.value == [] || (parse(qr.value).Some? && !HasLoginFields(parse(qr.value).value))
      ensures rc == CJsonParseErr <==> qr.Some? && qr.value != [] && parse(qr.value).None?
      ensures rc == Ok <==>
        qr.Some? && qr.value != [] && parse(qr.value).Some? && HasLoginFields(parse(qr.value).value)
      ensures rc != Ok ==> info == old(info)
      ensures rc == Ok ==>
        && qr.Some? && parse(qr.value).Some? && HasLoginFields(parse(qr.value).value)
        && info == LoggedIn(old(info), parse(qr.value).value)
    {
      if qr.None? || |qr.value| == 0 {
        return InvalidParm;
      }
      var json := parse(qr.value);
      if json.None? {
        return CJsonParseErr;
      }
      var fields := json.value;
      if !("user_id" in fields) || !("username" in fields) || !("token" in fields) {
        return InvalidParm;
      }
      info := info.(userId := Truncate(fields["user_id"], USER_ID_MAX));
      info := info.(username := Truncate(fields["username"], USERNAME_MAX));
      info := info.(isLoggedIn := true);
      rc := Ok;
    }

    /** `gk_user_update_info`: the guards decide the code; on success
        exactly height, weight and gender take the arguments, otherwise
        the record is untouched. */
    method UpdateInfo(height: int, weight: int, gender: int) returns (rc: Status)
      modifies this
      ensures rc == UpdateVerdict(old(info), height, weight, gender)
      ensures rc == Ok ==> info == old(info).(height := height, weight := weight, gender := gender)
      ensures rc != Ok ==> info == old(info)
    {
      if !info.isLoggedIn {
        return ComError;
      }
      if height < 100 || height > 220 {
        return InvalidParm;
      }
      if weight < 30 || weight > 200 {
        return InvalidParm;
      }
      if gender < 0 || gender > 1 {
        return InvalidParm;
      }
      info := info.(height := height, weight := weight, gender := gender);
      rc := Ok;
    }

    /** `gk_get_user_info`: the current record. */
    method GetUserInfo() returns (u: UserInfo)
      ensures u == info
    {
      u := info;
    }

    /** `gk_set_default_user_info`: every field takes the demo value. */
    method SetDefaultUserInfo()
      modifies this
      ensures info == DEFAULT_USER
    {
      info := info.(userId := "default_user", username := "Demo User");
      info := info.(height := 175, weight := 70, gender := 0);
      info := info.(isLoggedIn := true);
    }
  }

  /** Start-up followed by any profile edit: the edit is refused as not
      logged in and the record stays blank. */
  method InitThenUpdate(height: int, weight: int, gender: int) returns (rc: Status, u: UserInfo)
    ensures rc == ComError && u == BLANK
  {
    var store := new UserStore();
    var _ := store.Init();
    rc := store.UpdateInfo(height, weight, gender);
    u := store.GetUserInfo();
  }

  /** The demo profile followed by an in-range edit: accepted, and only
      the three edited fields change. */
  method DefaultThenUpdate(height: int, weight: int, gender: int) returns (rc: Status, u: UserInfo)
    requires HeightOk(height) && WeightOk(weight) && GenderOk(gender)
    ensures rc == Ok
    ensures u == UserInfo("default_user", "Demo User", height, weight, gender, true)
  {
    var store := new UserStore();
    store.SetDefaultUserInfo();
    rc := store.UpdateInfo(height, weight, gender);
    u := store.GetUserInfo();
  }
}
