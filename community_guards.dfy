/** The community blueprint's decorators: `calculate_age`, `age_verified`, `check_banned`,
    and the `login_required` they are stacked under. */
module CommunityGuards {
  import opened Wrappers
  import opened CommunityRecords

  /** `(a.month, a.day) < (b.month, b.day)` on tuples. */
  predicate MonthDayBefore(a: Date, b: Date)
  {
    a.month < b.month || (a.month == b.month && a.day < b.day)
  }

  /** `a < b` on dates: year first, then month and day. */
  predicate DateBefore(a: Date, b: Date)
  {
    a.year < b.year || (a.year == b.year && MonthDayBefore(a, b))
  }

  /** The `n`-th birthday of someone born on `b` (for 29 February a date that may not exist
      in that year, compared like the tuple it is). */
  function Anniversary(b: Date, n: int): Date
  {
    Date(b.year + n, b.month, b.day)
  }

  /** `calculate_age(birthdate)` on the day `today`: no age without a birthdate; otherwise the
      number of completed years — the `age`-th birthday has been reached, the next one not. */
  function CalculateAge(birthdate: Option<Date>, today: Date): (age: Option<int>)
    ensures age.None? <==> birthdate.None?
    ensures age.Some? ==> !DateBefore(today, Anniversary(birthdate.value, age.value))
    ensures age.Some? ==> DateBefore(today, Anniversary(birthdate.value, age.value + 1))
  {
    match birthdate
    case None => None
    case Some(b) => Some(today.year - b.year - (if MonthDayBefore(today, b) then 1 else 0))
  }

  /** The age is exactly the number of birthdays reached: the `n`-th has been reached iff
      `n` is at most the age. */
  lemma AgeCountsBirthdays(b: Date, today: Date, n: int)
    ensures !DateBefore(today, Anniversary(b, n)) <==> n <= CalculateAge(Some(b), today).value
  {
  }

  /** On the birthday itself the age is the difference of the years. */
  lemma AgeOnBirthday(b: Date, n: int)
    ensures CalculateAge(Some(b), Anniversary(b, n)) == Some(n)
  {
  }

  /** The age never decreases as the day advances. */
  lemma AgeMonotone(b: Date, t1: Date, t2: Date)
    requires !DateBefore(t2, t1)
    ensures CalculateAge(Some(b), t1).value <= CalculateAge(Some(b), t2).value
  {
    var a1 := CalculateAge(Some(b), t1).value;
    AgeCountsBirthdays(b, t1, a1);
    AgeCountsBirthdays(b, t2, a1);
  }

  /** `age_verified`: anonymous visitors pass (the view's own `login_required` deals with
      them); a signed-in user without a birthdate is sent to the age form. */
  function AgeVerified(viewer: Option<User>): (r: Outcome<()>)
    ensures r.Ok? <==> viewer.None? || viewer.value.birthdate.Some?
    ensures r.Err? ==> r == Err(302, "community.verify_age")
  {
    if viewer.Some? && viewer.value.birthdate.None? then Err(302, "community.verify_age") else Ok(())
  }

  /** `check_banned`: only a signed-in, banned user is sent away. */
  function CheckBanned(viewer: Option<User>): (r: Outcome<()>)
    ensures r.Ok? <==> viewer.None? || !viewer.value.isBanned
    ensures r.Err? ==> r == Err(302, "main.top_page")
  {
    if viewer.Some? && viewer.value.isBanned then Err(302, "main.top_page") else Ok(())
  }

  /** `@login_required @age_verified @check_banned`, applied outermost first; on success the
      signed-in user. */
  function Admit(users: seq<User>, session: Option<int>): (r: Outcome<User>)
    ensures r.Ok? ==> r.value in users && session == Some(r.value.id)
    ensures r.Ok? ==> r.value.birthdate.Some? && !r.value.isBanned
    ensures r.Ok? <==> var v := Viewer(users, session);
      v.Some? && v.value.birthdate.Some? && !v.value.isBanned
  {
    var viewer := Viewer(users, session);
    if viewer.None? then Err(401, "login required")
    else if AgeVerified(viewer).Err? then Err(302, "community.verify_age")
    else if CheckBanned(viewer).Err? then Err(302, "main.top_page")
    else Ok(viewer.value)
  }

  /** `@login_required` alone. */
  function SignedIn(users: seq<User>, session: Option<int>): (r: Outcome<User>)
    ensures r.Ok? <==> Viewer(users, session).Some?
    ensures r.Ok? ==> r.value in users && session == Some(r.value.id)
  {
    match Viewer(users, session)
    case None => Err(401, "login required")
    case Some(u) => Ok(u)
  }

  /** The stacked decorators let a request through exactly when a user is signed in, has a
      birthdate and is not banned; they refuse in that order, so a banned user without a
      birthdate is sent to the age form first. */
  lemma AdmitOrder(users: seq<User>, session: Option<int>)
    ensures Admit(users, session).Ok? <==>
      Viewer(users, session).Some? && Viewer(users, session).value.birthdate.Some?
      && !Viewer(users, session).value.isBanned
    ensures Viewer(users, session).None? ==> Admit(users, session) == Err(401, "login required")
    ensures Viewer(users, session).Some? && Viewer(users, session).value.birthdate.None?
      ==> Admit(users, session) == Err(302, "community.verify_age")
    ensures Viewer(users, session).Some? && Viewer(users, session).value.birthdate.Some?
      && Viewer(users, session).value.isBanned
      ==> Admit(users, session) == Err(302, "main.top_page")
  {
  }
}
