/** Shared constants and helpers of the backend (roles, report categories, achievements,
    the public view of a user and the semiban test). */
module Utils {
  import opened Wrappers
  import opened Lists
  import opened Records

  const RolePerformer: string := "推され人"
  const RoleFan: string := "推し人"
  const RoleWorker: string := "お仕事人"

  const AllowedRoles: set<string> := {RolePerformer, RoleFan, RoleWorker}
  const RoleReportPoints: map<string, int> := map[RolePerformer := 1, RoleFan := 1, RoleWorker := 1]
  const ReportCategories: seq<string> := ["スパム・広告", "迷惑行為", "不適切なコンテンツ", "その他"]
  const FirstPostAchievement: string := "初投稿"
  const FirstCommentAchievement: string := "初コメント"

  /** Report points needed for a semiban, and its length (seven days, in seconds). */
  const SemibanThreshold: int := 3
  const SemibanSeconds: int := 7 * 24 * 60 * 60

  /** `ROLE_REPORT_POINTS.get(role, 1)`. */
  function ReportWeight(role: string): (w: int)
    ensures w == 1
  {
    if role in RoleReportPoints then RoleReportPoints[role] else 1
  }

  lemma RoleTables()
    ensures |AllowedRoles| == 3 && RoleReportPoints.Keys == AllowedRoles
    ensures |ReportCategories| == 4 && NoDup(ReportCategories)
  {
  }

  /** Appends the achievement only when the user does not have it yet. */
  function AddAchievement(u: User, name: string): (r: User)
    ensures name in r.achievements
    ensures |r.achievements| == |u.achievements| + (if name in u.achievements then 0 else 1)
    ensures r.achievements[..|u.achievements|] == u.achievements
    ensures r == u.(achievements := r.achievements)
    ensures WellFormed(u) ==> WellFormed(r)
  {
    u.(achievements := AppendIfAbsent(u.achievements, name))
  }

  lemma AddAchievementIdempotent(u: User, name: string)
    ensures AddAchievement(AddAchievement(u, name), name) == AddAchievement(u, name)
  {
  }

  /** A copy of the user without password, report_points and semiban_until. */
  function RemoveSensitiveFields(u: User): (r: PublicUser)
    ensures Restore(r, u.password, u.reportPoints, u.semibanUntil) == u
  {
    PublicUser(u.email, u.userId, u.username, u.role, u.createdAt,
               u.profile, u.collabProfile, u.creatorProfile,
               u.followers, u.following, u.interested, u.bookmarks, u.notifications,
               u.achievements, u.blocks, u.materialBox)
  }

  /** Puts the three sensitive fields back into a public view. */
  function Restore(p: PublicUser, password: string, points: int, until: Semiban): User
  {
    User(p.email, p.userId, p.username, password, p.role, p.createdAt,
         p.profile, p.collabProfile, p.creatorProfile,
         p.followers, p.following, p.interested, p.bookmarks, p.notifications,
         p.achievements, points, until, p.blocks, p.materialBox)
  }

  /** The public view does not depend on the sensitive fields. */
  lemma RemoveSensitiveFieldsHides(u: User, password: string, points: int, until: Semiban)
    ensures RemoveSensitiveFields(u.(password := password, reportPoints := points, semibanUntil := until))
         == RemoveSensitiveFields(u)
  {
  }

  /** Two users with the same public view differ at most in the sensitive fields. */
  lemma {:induction false} RemoveSensitiveFieldsInjective(u: User, v: User)
    requires RemoveSensitiveFields(u) == RemoveSensitiveFields(v)
    ensures v == u.(password := v.password, reportPoints := v.reportPoints, semibanUntil := v.semibanUntil)
  {
    calc {
      v;
      Restore(RemoveSensitiveFields(v), v.password, v.reportPoints, v.semibanUntil);
      Restore(RemoveSensitiveFields(u), v.password, v.reportPoints, v.semibanUntil);
    }
  }

  /** `is_semibanned`: semiban_until is set, parses, and lies strictly after `now`. */
  predicate IsSemibanned(u: User, now: int)
  {
    match u.semibanUntil
    case Until(t) => t > now
    case _ => false
  }

  /** A semiban that holds now held at every earlier moment, and no semiban outlives its end. */
  lemma SemibanWindow(u: User, earlier: int, now: int)
    requires earlier <= now && IsSemibanned(u, now)
    ensures IsSemibanned(u, earlier)
    ensures u.semibanUntil.Until? && now < u.semibanUntil.t
    ensures forall later :: later >= u.semibanUntil.t ==> !IsSemibanned(u, later)
  {
  }
}
