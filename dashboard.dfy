/** The dashboard service: the statistics with their defaults, the recent activities joined
    with the names of the users who made them, and the per-level academic overview. */
module Dashboard {
  import opened Seqs

  datatype DashboardStats = DashboardStats(
    totalStudents: int, totalTeachers: int, totalClasses: int, activeYear: string,
    monthlyRevenue: int, outstandingPayments: int)

  const DefaultStats := DashboardStats(0, 0, 0, "2024-2025", 0, 0)

  /** `getDashboardStats`: the statistics the call returned, or the defaults when it failed
      (`fetched` is None). */
  function DashboardStatsOf(fetched: Option<DashboardStats>): (r: DashboardStats)
    ensures fetched.None? ==>
      r.totalStudents == 0 && r.totalTeachers == 0 && r.totalClasses == 0 &&
      r.monthlyRevenue == 0 && r.outstandingPayments == 0 && r.activeYear == "2024-2025"
    ensures fetched.Some? ==> r == fetched.value
  {
    if fetched.Some? then fetched.value else DefaultStats
  }

  /** An activity log row; the table name and the user id may be null. */
  datatype ActivityLog = ActivityLog(
    id: string, action: string, tableName: Option<string>, createdAt: string, userId: Option<string>)

  /** A user profile row; the full name may be null. */
  datatype UserProfileRow = UserProfileRow(id: string, fullName: Option<string>)

  datatype Activity = Activity(id: string, kind: string, title: string, description: string, time: string, user: string)

  /** A truthy optional string: present and not empty. */
  predicate Truthy(s: Option<string>) {
    s.Some? && s.value != ""
  }

  /** The truthy user ids of the logs, in order, with repetitions. */
  function TruthyIds(logs: seq<ActivityLog>): (r: seq<string>)
    ensures forall x :: x in r <==> exists i :: 0 <= i < |logs| && Truthy(logs[i].userId) && logs[i].userId.value == x
  {
    if |logs| == 0 then []
    else
      var p := logs[..|logs| - 1];
      var last := logs[|logs| - 1];
      assert forall i :: 0 <= i < |p| ==> p[i] == logs[i];
      TruthyIds(p) + (if Truthy(last.userId) then [last.userId.value] else [])
  }

  /** The ids asked for, `[...new Set(ids.filter(Boolean))]`: each truthy user id of the logs
      once, in the order first met; no empty id. */
  function UserIds(logs: seq<ActivityLog>): (r: seq<string>)
    ensures NoDup(r)
    ensures forall x :: x in r <==> exists i :: 0 <= i < |logs| && Truthy(logs[i].userId) && logs[i].userId.value == x
    ensures "" !in r
  {
    DistinctIsSubsequence(TruthyIds(logs));
    Distinct(TruthyIds(logs))
  }

  /** The map the profile loop builds: each profile sets its id to its name, so a later row
      with the same id wins. */
  function UserMapOf(profiles: seq<UserProfileRow>): map<string, Option<string>> {
    if |profiles| == 0 then map[]
    else UserMapOf(profiles[..|profiles| - 1])[profiles[|profiles| - 1].id := profiles[|profiles| - 1].fullName]
  }

  /** The map has exactly the profiles' ids, and each id holds the name of the last profile
      with that id. */
  lemma {:induction false} UserMapMeaning(profiles: seq<UserProfileRow>, k: string)
    ensures k in UserMapOf(profiles) <==> exists i :: 0 <= i < |profiles| && profiles[i].id == k
    ensures k in UserMapOf(profiles) ==>
      exists i :: 0 <= i < |profiles| && profiles[i].id == k && UserMapOf(profiles)[k] == profiles[i].fullName &&
        forall j :: i < j < |profiles| ==> profiles[j].id != k
  {
    if |profiles| > 0 {
      var p := profiles[..|profiles| - 1];
      var last := profiles[|profiles| - 1];
      UserMapMeaning(p, k);
      assert forall i :: 0 <= i < |p| ==> p[i] == profiles[i];
      if last.id == k {
        assert profiles[|profiles| - 1].id == k;
      } else if k in UserMapOf(profiles) {
        var i :| 0 <= i < |p| && p[i].id == k && UserMapOf(p)[k] == p[i].fullName &&
          forall j :: i < j < |p| ==> p[j].id != k;
        assert profiles[i].id == k && UserMapOf(profiles)[k] == profiles[i].fullName;
      }
    }
  }

  /** `userProfiles?.forEach(profile => userMap.set(profile.id, profile.full_name))`; no
      profiles (a failed lookup) leave the map empty. */
  method BuildUserMap(profiles: Option<seq<UserProfileRow>>) returns (m: map<string, Option<string>>)
    ensures m == UserMapOf(if profiles.Some? then profiles.value else [])
  {
    m := map[];
    if profiles.Some? {
      var ps := profiles.value;
      var i := 0;
      while i < |ps|
        invariant 0 <= i <= |ps|
        invariant m == UserMapOf(ps[..i])
      {
        m := m[ps[i].id := ps[i].fullName];
        assert ps[..i + 1][..i] == ps[..i];
        i := i + 1;
      }
      assert ps[..|ps|] == ps;
    }
  }

  /** `userMap.get(log.user_id) || 'Système'`. */
  function UserName(userMap: map<string, Option<string>>, userId: Option<string>): (r: string)
    ensures r != ""
  {
    if userId.Some? && userId.value in userMap && Truthy(userMap[userId.value]) then userMap[userId.value].value
    else "Système"
  }

  /** `Action sur ${log.table_name}`: a null table name prints as "null". */
  function Described(tableName: Option<string>): string {
    "Action sur " + (if tableName.Some? then tableName.value else "null")
  }

  /** One entry of the activity list; `formatTime` stands for the French date formatting. */
  function ActivityOf(log: ActivityLog, userMap: map<string, Option<string>>, formatTime: string -> string): Activity {
    Activity(log.id, if Truthy(log.tableName) then log.tableName.value else "système", log.action,
      Described(log.tableName), formatTime(log.createdAt), UserName(userMap, log.userId))
  }

  /** `getRecentActivities`: nothing when the logs failed to load, are missing or are empty;
      otherwise one entry per log, in order, named after the last profile with the log's user
      id when that name is non-empty, and 'Système' otherwise. */
  method RecentActivities(logs: Option<seq<ActivityLog>>, profiles: Option<seq<UserProfileRow>>, formatTime: string -> string)
    returns (r: seq<Activity>)
    ensures logs.None? ==> r == []
    ensures logs.Some? ==> |r| == |logs.value|
    ensures logs.Some? ==> forall i :: 0 <= i < |r| ==>
      var log, ps := logs.value[i], if profiles.Some? then profiles.value else [];
      r[i].id == log.id && r[i].title == log.action && r[i].time == formatTime(log.createdAt) &&
      r[i].description == Described(log.tableName) &&
      r[i].kind == (if Truthy(log.tableName) then log.tableName.value else "système") &&
      r[i].user == UserName(UserMapOf(ps), log.userId)
  {
    if logs.None? || |logs.value| == 0 {
      return [];
    }
    var userMap := BuildUserMap(profiles);
    r := MapSeq(logs.value, log => ActivityOf(log, userMap, formatTime));
  }

  /** The name shown for a log: the name of the last profile with the log's user id when that
      name is non-empty, 'Système' when no profile has the id or the name is empty or null. */
  lemma ActivityUserJoin(profiles: seq<UserProfileRow>, userId: Option<string>)
    ensures (userId.None? || forall i :: 0 <= i < |profiles| ==> profiles[i].id != userId.value) ==>
      UserName(UserMapOf(profiles), userId) == "Système"
    ensures userId.Some? && (exists i :: 0 <= i < |profiles| && profiles[i].id == userId.value) ==>
      exists i :: 0 <= i < |profiles| && profiles[i].id == userId.value &&
        (forall j :: i < j < |profiles| ==> profiles[j].id != userId.value) &&
        UserName(UserMapOf(profiles), userId) == (if Truthy(profiles[i].fullName) then profiles[i].fullName.value else "Système")
  {
    if userId.Some? {
      UserMapMeaning(profiles, userId.value);
    }
  }

  /** A class of a level with its students' ids when they were fetched. */
  datatype LevelClass = LevelClass(id: string, students: Option<seq<string>>)

  datatype LevelRow = LevelRow(name: string, classes: Option<seq<LevelClass>>)

  /** One entry of the overview; `percentage` is random in the service. */
  datatype LevelOverview = LevelOverview(level: string, students: nat, classes: nat, trend: string, percentage: real)

  /** `cls.students?.length || 0`. */
  function ClassSize(c: LevelClass): int {
    if c.students.Some? then |c.students.value| else 0
  }

  /** The students of the classes taken together. */
  function AllStudents(classes: seq<LevelClass>): seq<string> {
    if |classes| == 0 then []
    else AllStudents(classes[..|classes| - 1]) + (if classes[|classes| - 1].students.Some? then classes[|classes| - 1].students.value else [])
  }

  /** The reduce over the classes counts each fetched student once. */
  lemma {:induction false} ClassSizesCount(classes: seq<LevelClass>)
    ensures Sum(classes, ClassSize) == |AllStudents(classes)|
  {
    if |classes| > 0 {
      ClassSizesCount(classes[..|classes| - 1]);
    }
  }

  function LevelOverviewOf(row: LevelRow, percentage: real): (r: LevelOverview)
    ensures r.students == |AllStudents(if row.classes.Some? then row.classes.value else [])|
  {
    var cs := if row.classes.Some? then row.classes.value else [];
    ClassSizesCount(cs);
    LevelOverview(row.name, Sum(cs, ClassSize), |cs|, "up", percentage)
  }

  /** `getAcademicOverview`: nothing when the levels failed to load or are missing; otherwise
      one entry per level, in order, counting its classes and the students listed in them, 0
      for a level without classes. `percentage` stands for the random percentage of each entry. */
  function AcademicOverview(levels: Option<seq<LevelRow>>, percentage: nat -> real): (r: seq<LevelOverview>)
    ensures levels.None? ==> r == []
    ensures levels.Some? ==> |r| == |levels.value| && forall i :: 0 <= i < |r| ==>
      var cs := if levels.value[i].classes.Some? then levels.value[i].classes.value else [];
      r[i].level == levels.value[i].name && r[i].classes == |cs| && r[i].students == |AllStudents(cs)| &&
      r[i].trend == "up"
  {
    if levels.None? then []
    else
      var ls := levels.value;
      var r := seq(|ls|, i requires 0 <= i < |ls| => LevelOverviewOf(ls[i], percentage(i)));
      assert forall i :: 0 <= i < |r| ==> r[i] == LevelOverviewOf(ls[i], percentage(i));
      r
  }

  /** A level whose classes were not fetched, or who has none, shows no class and no student. */
  lemma EmptyLevel(name: string, percentage: nat -> real)
    ensures var r := AcademicOverview(Some([LevelRow(name, None)]), percentage);
      r[0].classes == 0 && r[0].students == 0
  {
  }
}
