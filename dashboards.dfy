/** The two dashboards: the admin's counts of leaders and sign-in attempts, and a
    leader's counts of their certificates and of the templates they can use. */
module Dashboards {
  import opened Wrappers
  import opened Accounts
  import opened Certificates
  import opened Templates

  // ---------------------------------------------------------------------------
  // The admin dashboard

  /** A row of the login log; only its outcome is counted. */
  datatype LoginLog = LoginLog(success: bool)

  datatype AdminStats = AdminStats(
    totalUsers: nat,
    activeUsers: nat,
    suspendedUsers: nat,
    terminatedUsers: nat,
    recentLogins: nat,
    failedLogins: nat)

  /** The number of users with role `leader`. */
  function LeaderCount(users: seq<User>): (n: nat)
    ensures n <= |users|
  {
    if users == [] then 0
    else (if users[0].role == Leader then 1 else 0) + LeaderCount(users[1..])
  }

  /** The number of leaders with the given status. */
  function LeaderStatusCount(users: seq<User>, status: UserStatus): (n: nat)
    ensures n <= LeaderCount(users)
  {
    if users == [] then 0
    else (if users[0].role == Leader && users[0].status == status then 1 else 0)
         + LeaderStatusCount(users[1..], status)
  }

  /** The number of log rows with the given outcome. */
  function LoginCount(logs: seq<LoginLog>, success: bool): (n: nat)
    ensures n <= |logs|
  {
    if logs == [] then 0
    else (if logs[0].success == success then 1 else 0) + LoginCount(logs[1..], success)
  }

  /** `AdminDashboardController::index`. Every aggregate query returns a row, so the
      `?? 0` fallbacks never apply; the counts of an empty table are 0 anyway. */
  function AdminDashboard(users: seq<User>, logs: seq<LoginLog>): (s: AdminStats)
    ensures s.totalUsers <= |users|
    ensures s.recentLogins + s.failedLogins == |logs|
    ensures users == [] ==> s.totalUsers == s.activeUsers == s.suspendedUsers == s.terminatedUsers == 0
  {
    LoginsPartition(logs);
    AdminStats(LeaderCount(users), LeaderStatusCount(users, Active), LeaderStatusCount(users, Suspended),
               LeaderStatusCount(users, Terminated), LoginCount(logs, true), LoginCount(logs, false))
  }

  /** Each sign-in attempt is counted as successful or as failed, never both. */
  lemma {:induction false} LoginsPartition(logs: seq<LoginLog>)
    ensures LoginCount(logs, true) + LoginCount(logs, false) == |logs|
  {
    if logs != [] {
      LoginsPartition(logs[1..]);
    }
  }

  /** Since a status is one of the three, the three status counts add up to the number
      of leaders. */
  lemma {:induction false} StatusCountsSum(users: seq<User>)
    ensures var s := AdminDashboard(users, []);
            s.activeUsers + s.suspendedUsers + s.terminatedUsers == s.totalUsers
  {
    if users != [] {
      StatusCountsSum(users[1..]);
    }
  }

  /** Admins and superadmins are left out of every user count. */
  lemma {:induction false} StaffNotCounted(users: seq<User>, staff: User, logs: seq<LoginLog>)
    requires staff.role != Leader
    ensures AdminDashboard(users + [staff], logs) == AdminDashboard(users, logs)
  {
    if users == [] {
      assert (users + [staff])[1..] == [];
    } else {
      assert (users + [staff])[1..] == users[1..] + [staff];
      StaffNotCounted(users[1..], staff, logs);
    }
  }

  /** A leader is counted once in the total and once under their own status. */
  lemma {:induction false} LeaderCounted(users: seq<User>, leader: User, status: UserStatus)
    requires leader.role == Leader
    ensures LeaderCount(users + [leader]) == LeaderCount(users) + 1
    ensures LeaderStatusCount(users + [leader], status)
            == LeaderStatusCount(users, status) + (if leader.status == status then 1 else 0)
  {
    if users == [] {
      assert (users + [leader])[1..] == [];
    } else {
      assert (users + [leader])[1..] == users[1..] + [leader];
      LeaderCounted(users[1..], leader, status);
    }
  }

  // ---------------------------------------------------------------------------
  // The leader dashboard

  datatype LeaderStats = LeaderStats(
    totalCertificates: nat,
    activeCertificates: nat,
    emailsSent: nat,
    certificateTemplates: nat,
    emailTemplates: nat,
    revokedCertificates: nat)

  /** The unique ids of the user's certificates. */
  function OwnCertificates(certificates: map<string, Certificate>, userId: nat): (ids: set<string>)
    ensures ids <= certificates.Keys
    ensures forall u :: u in ids <==> u in certificates && certificates[u].userId == userId
  {
    set u | u in certificates && certificates[u].userId == userId
  }

  /** The unique ids of the user's certificates with the given status. */
  function OwnWithStatus(certificates: map<string, Certificate>, userId: nat, status: Status): (ids: set<string>)
    ensures ids <= OwnCertificates(certificates, userId)
    ensures forall u :: u in ids <==> u in OwnCertificates(certificates, userId) && certificates[u].status == status
  {
    set u | u in certificates && certificates[u].userId == userId && certificates[u].status == status
  }

  /** The unique ids of the user's certificates that carry a recipient email, whether
      or not a mail went out. */
  function OwnWithEmail(certificates: map<string, Certificate>, userId: nat): (ids: set<string>)
    ensures ids <= OwnCertificates(certificates, userId)
    ensures forall u :: u in ids <==> u in OwnCertificates(certificates, userId) && certificates[u].recipientEmail.Some?
  {
    set u | u in certificates && certificates[u].userId == userId && certificates[u].recipientEmail.Some?
  }

  /** The certificate templates the user owns or that are global. */
  function VisibleCertificateTemplates(templates: map<nat, CertificateTemplate>, userId: nat): (ids: set<nat>)
    ensures forall id :: id in ids <==> id in templates && (templates[id].userId == userId || templates[id].isGlobal)
  {
    set id | id in templates && (templates[id].userId == userId || templates[id].isGlobal)
  }

  /** The email templates the user owns or that are global. */
  function VisibleEmailTemplates(templates: map<nat, EmailTemplate>, userId: nat): (ids: set<nat>)
    ensures forall id :: id in ids <==> id in templates && (templates[id].userId == userId || templates[id].isGlobal)
  {
    set id | id in templates && (templates[id].userId == userId || templates[id].isGlobal)
  }

  /** `DashboardController::index` for the signed-in user. */
  function LeaderDashboard(certificates: map<string, Certificate>, certificateTemplates: map<nat, CertificateTemplate>,
                           emailTemplates: map<nat, EmailTemplate>, userId: nat): (s: LeaderStats)
    ensures s.activeCertificates + s.revokedCertificates == s.totalCertificates
    ensures s.emailsSent <= s.totalCertificates
    ensures s.totalCertificates <= |certificates|
    ensures s.certificateTemplates <= |certificateTemplates| && s.emailTemplates <= |emailTemplates|
  {
    var own := OwnCertificates(certificates, userId);
    StatusesSplitOwn(certificates, userId);
    SubsetSize(own, certificates.Keys);
    SubsetSize(OwnWithEmail(certificates, userId), own);
    SubsetSize(VisibleCertificateTemplates(certificateTemplates, userId), certificateTemplates.Keys);
    SubsetSize(VisibleEmailTemplates(emailTemplates, userId), emailTemplates.Keys);
    LeaderStats(|own|, |OwnWithStatus(certificates, userId, Issued)|, |OwnWithEmail(certificates, userId)|,
                |VisibleCertificateTemplates(certificateTemplates, userId)|,
                |VisibleEmailTemplates(emailTemplates, userId)|,
                |OwnWithStatus(certificates, userId, Revoked)|)
  }

  /** A certificate is issued or revoked, so those two counts split the total. */
  lemma StatusesSplitOwn(certificates: map<string, Certificate>, userId: nat)
    ensures |OwnWithStatus(certificates, userId, Issued)| + |OwnWithStatus(certificates, userId, Revoked)|
            == |OwnCertificates(certificates, userId)|
  {
    var issued := OwnWithStatus(certificates, userId, Issued);
    var revoked := OwnWithStatus(certificates, userId, Revoked);
    assert issued * revoked == {};
    assert issued + revoked == OwnCertificates(certificates, userId);
  }

  lemma SubsetSize<T>(a: set<T>, b: set<T>)
    requires a <= b
    ensures |a| <= |b|
  {
    assert b == a + (b - a);
  }

  /** A template that is both the user's own and global is counted once; the count is
      the size of the union of own and global templates. */
  lemma {:induction false} TemplatesCountedOnce(templates: map<nat, CertificateTemplate>, userId: nat)
    ensures var own := set id | id in templates && templates[id].userId == userId;
            var global := set id | id in templates && templates[id].isGlobal;
            |VisibleCertificateTemplates(templates, userId)| == |own| + |global| - |own * global|
  {
    var own := set id | id in templates && templates[id].userId == userId;
    var global := set id | id in templates && templates[id].isGlobal;
    assert VisibleCertificateTemplates(templates, userId) == own + global;
  }

  /** Another user's certificate changes none of the counts. */
  lemma OthersCertificatesIgnored(certificates: map<string, Certificate>, certificateTemplates: map<nat, CertificateTemplate>,
                                  emailTemplates: map<nat, EmailTemplate>, userId: nat, c: Certificate)
    requires c.userId != userId
    ensures LeaderDashboard(certificates[c.uniqueId := c], certificateTemplates, emailTemplates, userId)
            == LeaderDashboard(certificates - {c.uniqueId}, certificateTemplates, emailTemplates, userId)
  {
    var with := certificates[c.uniqueId := c];
    var without := certificates - {c.uniqueId};
    assert OwnCertificates(with, userId) == OwnCertificates(without, userId);
    assert OwnWithStatus(with, userId, Issued) == OwnWithStatus(without, userId, Issued);
    assert OwnWithStatus(with, userId, Revoked) == OwnWithStatus(without, userId, Revoked);
    assert OwnWithEmail(with, userId) == OwnWithEmail(without, userId);
  }
}
