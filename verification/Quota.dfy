/** Daily AI quotas: the check made before a call and the debit made after it. */
module Quota {

  datatype Feature =
    | GenerateFromPrompt
    | GenerateFromPDF
    | CheckFlashcard
    | GenerateRevisionPlan
    | CrossSubjectRank
    | ExtractKeywords

  datatype Row = Row(promptCalls: int, pdfCalls: int, pdfPages: int, checkCalls: int, planCalls: int, rankCalls: int)

  datatype Limits = Limits(promptCalls: int, pdfCalls: int, pdfPages: int, checkCalls: int, planCalls: int)

  datatype Verdict = Admitted | Exhausted(bucket: string)

  const EMPTY := Row(0, 0, 0, 0, 0, 0)

  function CheckAgainstLimits(row: Row, feat: Feature, pdfPages: int, lim: Limits): Verdict {
    match feat
    case GenerateFromPrompt =>
      if row.promptCalls >= lim.promptCalls then Exhausted("prompt") else Admitted
    case GenerateFromPDF =>
      if row.pdfCalls >= lim.pdfCalls then Exhausted("pdf")
      else if row.pdfPages + pdfPages > lim.pdfPages then Exhausted("pdf_pages")
      else Admitted
    case CheckFlashcard =>
      if row.checkCalls >= lim.checkCalls then Exhausted("check") else Admitted
    case GenerateRevisionPlan =>
      if row.planCalls >= lim.planCalls then Exhausted("plan") else Admitted
    case CrossSubjectRank => Admitted
    case ExtractKeywords => Admitted
  }

  function AddCalls(row: Row, feat: Feature, calls: int): Row {
    match feat
    case GenerateFromPrompt => row.(promptCalls := row.promptCalls + calls)
    case GenerateFromPDF => row.(pdfCalls := row.pdfCalls + calls)
    case CheckFlashcard => row.(checkCalls := row.checkCalls + calls)
    case GenerateRevisionPlan => row.(planCalls := row.planCalls + calls)
    case CrossSubjectRank => row.(rankCalls := row.rankCalls + calls)
    case ExtractKeywords => row
  }

  /** A debit of no calls touches no counter; a feature without a counter is refused before pages are looked at. */
  function Debited(row: Row, feat: Feature, calls: int, pages: int): Row {
    var row := if calls <= 0 then row else AddCalls(row, feat, calls);
    if feat == GenerateFromPDF && pages > 0 then row.(pdfPages := row.pdfPages + pages) else row
  }

  type Rows = map<(nat, int), Row>

  /** An insert that leaves an existing row alone. */
  function WithRow(rows: Rows, uid: nat, day: int): Rows {
    if (uid, day) in rows then rows else rows[(uid, day) := EMPTY]
  }

  function AfterDebit(rows: Rows, uid: nat, day: int, feat: Feature, calls: int, pages: int): Rows {
    var all := WithRow(rows, uid, day);
    all[(uid, day) := Debited(all[(uid, day)], feat, calls, pages)]
  }

  /** The quota table: one row per user and day, created on first use. */
  class QuotaTable {
    var rows: Rows
    var today: int

    constructor (today: int)
      ensures rows == map[] && this.today == today
    {
      rows := map[];
      this.today := today;
    }

    /** Time passes, perhaps past midnight. */
    method Wait()
      modifies this`today
      ensures today >= old(today)
    {
      var later :| later >= today;
      today := later;
    }

    method EnsureRow(uid: nat)
      modifies this`rows
      ensures (uid, today) in rows
      ensures rows == if (uid, today) in old(rows) then old(rows) else old(rows)[(uid, today) := Row(0, 0, 0, 0, 0, 0)]
    {
      if (uid, today) !in rows {
        rows := rows[(uid, today) := EMPTY];
      }
    }

    /** Decides on the row of today that is there, or on zeros, and changes no counter. */
    method CheckQuota(uid: nat, feat: Feature, pdfPages: int, lim: Limits) returns (v: Verdict)
      modifies this`rows
      ensures rows == WithRow(old(rows), uid, today)
      ensures rows == if (uid, today) in old(rows) then old(rows) else old(rows)[(uid, today) := Row(0, 0, 0, 0, 0, 0)]
      ensures v == CheckAgainstLimits(rows[(uid, today)], feat, pdfPages, lim)
      ensures var used := rows[(uid, today)];
              v == Admitted <==>
              match feat
              case GenerateFromPrompt => used.promptCalls < lim.promptCalls
              case GenerateFromPDF => used.pdfCalls < lim.pdfCalls && used.pdfPages + pdfPages <= lim.pdfPages
              case CheckFlashcard => used.checkCalls < lim.checkCalls
              case GenerateRevisionPlan => used.planCalls < lim.planCalls
              case _ => true
      ensures v.Exhausted? ==>
                v.bucket == match feat
                            case GenerateFromPrompt => "prompt"
                            case GenerateFromPDF =>
                              if rows[(uid, today)].pdfCalls >= lim.pdfCalls then "pdf" else "pdf_pages"
                            case CheckFlashcard => "check"
                            case _ => "plan"
    {
      EnsureRow(uid);
      v := CheckAgainstLimits(rows[(uid, today)], feat, pdfPages, lim);
    }

    /** Only the caller's row of today changes, and in it only the feature's counters. */
    method DebitQuota(uid: nat, feat: Feature, calls: int, pages: int) returns (ok: bool)
      modifies this`rows
      ensures rows == AfterDebit(old(rows), uid, today, feat, calls, pages)
      ensures (uid, today) in rows && rows == old(rows)[(uid, today) := rows[(uid, today)]]
      ensures var before := if (uid, today) in old(rows) then old(rows)[(uid, today)] else Row(0, 0, 0, 0, 0, 0);
              var after, n := rows[(uid, today)], if calls > 0 then calls else 0;
              && after.promptCalls == before.promptCalls + (if feat == GenerateFromPrompt then n else 0)
              && after.pdfCalls == before.pdfCalls + (if feat == GenerateFromPDF then n else 0)
              && after.checkCalls == before.checkCalls + (if feat == CheckFlashcard then n else 0)
              && after.planCalls == before.planCalls + (if feat == GenerateRevisionPlan then n else 0)
              && after.rankCalls == before.rankCalls + (if feat == CrossSubjectRank then n else 0)
              && after.pdfPages == before.pdfPages + (if feat == GenerateFromPDF && pages > 0 then pages else 0)
      ensures ok <==> !(calls > 0 && feat == ExtractKeywords)
    {
      EnsureRow(uid);
      if calls > 0 {
        if feat == ExtractKeywords {
          return false;
        }
        rows := rows[(uid, today) := AddCalls(rows[(uid, today)], feat, calls)];
      }
      if feat == GenerateFromPDF && pages > 0 {
        var row := rows[(uid, today)];
        rows := rows[(uid, today) := row.(pdfPages := row.pdfPages + pages)];
      }
      return true;
    }
  }
}
