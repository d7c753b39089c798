/** The security page: the audit log filtered by a case-sensitive search,
    the status counts and the status badge. */
module SecurityView {
  import Wrappers
  import opened Seqs
  import Text

  datatype LogStatus = Success | Warning | Error

  datatype SecurityLog = SecurityLog(id: string, action: string, user: string, ip: string, status: LogStatus,
                                     timestamp: string, details: Wrappers.Option<string>)

  datatype LogStats = LogStats(total: nat, success: nat, warning: nat, error: nat)

  /** A badge; `caption` is its text. */
  datatype Badge = Badge(variant: string, caption: string)

  /** `filteredLogs` keeps a log whose action, user or ip contains the search
      exactly as typed (case matters). */
  predicate LogMatches(log: SecurityLog, search: string) {
    Text.Includes(log.action, search) || Text.Includes(log.user, search) || Text.Includes(log.ip, search)
  }

  function MatchesSearch(search: string): SecurityLog -> bool {
    (log: SecurityLog) => LogMatches(log, search)
  }

  function FilterLogs(logs: seq<SecurityLog>, search: string): (r: seq<SecurityLog>)
    ensures forall l :: l in r <==> l in logs && LogMatches(l, search)
  {
    Filter(logs, MatchesSearch(search))
  }

  /** An empty search shows every log, in order. */
  lemma EmptySearchShowsAll(logs: seq<SecurityLog>)
    ensures FilterLogs(logs, "") == logs
  {
    forall k | 0 <= k < |logs| ensures MatchesSearch("")(logs[k]) {
      Text.IncludesEmpty(logs[k].action);
    }
    FilterKeepsAll(logs, MatchesSearch(""));
  }

  /** Case matters: a lower-case search does not find an upper-case action. */
  lemma SearchIsCaseSensitive()
    ensures !LogMatches(SecurityLog("1", "A", "B", "C", Success, "", Wrappers.None), "a")
  {
    assert "A"[..1][0] == 'A';
    assert !Text.StartsWith("A", "a");
    assert "A"[1..] == [];
    assert !Text.StartsWith([], "a");
    assert !Text.Includes("A"[1..], "a");
  }

  function HasStatus(s: LogStatus): SecurityLog -> bool {
    (l: SecurityLog) => l.status == s
  }

  /** `stats`. */
  function Stats(logs: seq<SecurityLog>): (r: LogStats)
    ensures r.total == |logs| && r.success == Count(logs, HasStatus(Success))
    ensures r.warning == Count(logs, HasStatus(Warning)) && r.error == Count(logs, HasStatus(Error))
  {
    LogStats(|logs|, Count(logs, HasStatus(Success)), Count(logs, HasStatus(Warning)), Count(logs, HasStatus(Error)))
  }

  /** Every log has one of the three statuses, so the counts add up. */
  lemma StatsAddUp(logs: seq<SecurityLog>)
    ensures Stats(logs).success + Stats(logs).warning + Stats(logs).error == Stats(logs).total
  {
    CountThreeWay(logs, HasStatus(Success), HasStatus(Warning), HasStatus(Error));
  }

  /** `getStatusBadge`: success, warning and error show as success, warning
      and destructive badges labelled 成功, 警告 and 失败. */
  function StatusBadge(status: LogStatus): (b: Badge)
    ensures status == Success <==> b.variant == "success"
    ensures status == Warning <==> b.variant == "warning"
    ensures status == Error <==> b.variant == "destructive"
    ensures b.caption == (if status == Success then "成功" else if status == Warning then "警告" else "失败")
  {
    match status
    case Success => Badge("success", "成功")
    case Warning => Badge("warning", "警告")
    case Error => Badge("destructive", "失败")
  }
}
