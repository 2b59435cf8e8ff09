/** The two plan rules of the router: the monthly upload quota and the per-document page limit. */
module Limits {
  import opened Wrappers
  import opened Plans
  import opened Records

  /** Same calendar month of the same year. */
  predicate InMonth(t: YearMonth, now: YearMonth) {
    t.month == now.month && t.year == now.year
  }

  /** The ids of the caller's files created in the month `now`. */
  function FilesThisMonth(files: map<string, File>, userId: string, now: YearMonth): set<string> {
    set id | id in files && files[id].userId == Some(userId) && InMonth(files[id].createdAt, now)
  }

  /** `isQuotaCompleted`: the caller's uploads this month have reached the plan's quota. */
  function IsQuotaCompleted(files: map<string, File>, userId: string, planName: string, now: YearMonth): (r: bool)
    ensures r <==> |FilesThisMonth(files, userId, now)| >= (if planName == "Pro" then 50 else 10)
  {
    |FilesThisMonth(files, userId, now)| >= QuotaFor(planName)
  }

  /** The threshold worked out: 50 uploads for Pro, 10 for Free and for an unknown plan name;
      reaching the quota exactly already completes it, one short does not. */
  lemma QuotaThreshold(files: map<string, File>, userId: string, planName: string, now: YearMonth)
    ensures var q := if planName == "Pro" then 50 else 10;
            IsQuotaCompleted(files, userId, planName, now) <==> |FilesThisMonth(files, userId, now)| >= q
    ensures |FilesThisMonth(files, userId, now)| == QuotaFor(planName) ==> IsQuotaCompleted(files, userId, planName, now)
    ensures |FilesThisMonth(files, userId, now)| == QuotaFor(planName) - 1 ==> !IsQuotaCompleted(files, userId, planName, now)
  {
  }

  /** A new upload by the caller in the current month counts exactly once. */
  lemma {:induction false} UploadCounts(files: map<string, File>, userId: string, now: YearMonth, f: File)
    requires f.id !in files
    requires f.userId == Some(userId) && InMonth(f.createdAt, now)
    ensures |FilesThisMonth(files[f.id := f], userId, now)| == |FilesThisMonth(files, userId, now)| + 1
  {
    assert FilesThisMonth(files[f.id := f], userId, now) == FilesThisMonth(files, userId, now) + {f.id};
  }

  /** A file of another caller, of another year or of another month does not count. */
  lemma {:induction false} OtherMonthIgnored(files: map<string, File>, userId: string, planName: string, now: YearMonth, f: File)
    requires f.id !in files
    requires f.userId != Some(userId) || f.createdAt.year != now.year || f.createdAt.month != now.month
    ensures FilesThisMonth(files[f.id := f], userId, now) == FilesThisMonth(files, userId, now)
    ensures IsQuotaCompleted(files[f.id := f], userId, planName, now) == IsQuotaCompleted(files, userId, planName, now)
  {
    assert FilesThisMonth(files[f.id := f], userId, now) == FilesThisMonth(files, userId, now);
  }

  /** Once completed, a quota stays completed as the caller uploads more this month. */
  lemma {:induction false} QuotaStaysCompleted(files: map<string, File>, userId: string, planName: string, now: YearMonth, f: File)
    requires f.id !in files
    requires IsQuotaCompleted(files, userId, planName, now)
    ensures IsQuotaCompleted(files[f.id := f], userId, planName, now)
  {
    assert FilesThisMonth(files, userId, now) <= FilesThisMonth(files[f.id := f], userId, now);
    SubsetCardinality(FilesThisMonth(files, userId, now), FilesThisMonth(files[f.id := f], userId, now));
  }

  lemma SubsetCardinality<T>(a: set<T>, b: set<T>)
    requires a <= b
    ensures |a| <= |b|
  {
    assert b == a + (b - a);
  }

  /** The page-limit test: a non-admin caller's document is over the limit of their plan,
      Pro when subscribed and Free otherwise. */
  function PageLimitExceeded(isAdmin: bool, isSubscribed: bool, pages: nat): (r: bool)
    ensures r <==> !isAdmin && pages > (if isSubscribed then 25 else 5)
  {
    ProPlanLimits();
    FreePlanLimits();
    var isProExceeded := pages > PagePerPdf("Pro");
    var isFreeExceeded := pages > PagePerPdf("Free");
    !isAdmin && ((isSubscribed && isProExceeded) || (!isSubscribed && isFreeExceeded))
  }

  /** The rule worked out: admins are never limited; others may have up to 25 pages when
      subscribed and up to 5 otherwise, a document exactly at the limit passing. */
  lemma PageLimitRule(isAdmin: bool, isSubscribed: bool, pages: nat)
    ensures PageLimitExceeded(isAdmin, isSubscribed, pages) <==> !isAdmin && pages > (if isSubscribed then 25 else 5)
  {
    ProPlanLimits();
    FreePlanLimits();
  }

  /** A subscribed caller is never limited more strictly than a free one. */
  lemma SubscribedNeverStricter(isAdmin: bool, pages: nat)
    ensures PageLimitExceeded(isAdmin, true, pages) ==> PageLimitExceeded(isAdmin, false, pages)
  {
    PageLimitRule(isAdmin, true, pages);
    PageLimitRule(isAdmin, false, pages);
  }
}
