/// The report overview (`ReportOverview`): the viewer's filtered reports with
/// their count, ticket sum and row numbers, the administrator's per-name
/// summary of all reports, and deleting a report after confirmation.
module ReportOverview {
  import opened Records
  import opened Ledger

  /** Each report as the ticket amount it credits to its author's name. */
  function Tickets(rs: seq<Report>): (es: seq<Entry>)
    ensures |es| == |rs|
    ensures forall i :: 0 <= i < |rs| ==> es[i] == Entry(rs[i].yourName, rs[i].ticket)
  {
    if rs == [] then [] else Tickets(rs[..|rs| - 1]) + [Entry(rs[|rs| - 1].yourName, rs[|rs| - 1].ticket)]
  }

  /**
   * `reports.filter(report => report.yourName === currentUserName)`; an
   * `undefined` name (`None`) matches no report.
   */
  function ByAuthor(rs: seq<Report>, author: Option<string>): seq<Report>
  {
    if rs == [] then []
    else ByAuthor(rs[..|rs| - 1], author) + (if Some(rs[|rs| - 1].yourName) == author then [rs[|rs| - 1]] else [])
  }

  /** `reports.filter(report => report.id !== reportId)` */
  function WithoutReport(rs: seq<Report>, id: string): seq<Report>
  {
    if rs == [] then []
    else WithoutReport(rs[..|rs| - 1], id) + (if rs[|rs| - 1].id != id then [rs[|rs| - 1]] else [])
  }

  /** The author filter keeps the relative order: it distributes over concatenation. */
  lemma {:induction false} ByAuthorAppend(a: seq<Report>, b: seq<Report>, author: Option<string>)
    ensures ByAuthor(a + b, author) == ByAuthor(a, author) + ByAuthor(b, author)
    decreases |b|
  {
    if b == [] {
      assert a + b == a;
    } else {
      assert (a + b)[..|a + b| - 1] == a + b[..|b| - 1];
      ByAuthorAppend(a, b[..|b| - 1], author);
    }
  }

  /** A report is visible exactly when it is in the list and its author is the viewer. */
  lemma {:induction false} ByAuthorMember(rs: seq<Report>, author: Option<string>, x: Report)
    ensures x in ByAuthor(rs, author) <==> x in rs && Some(x.yourName) == author
    decreases |rs|
  {
    if rs != [] {
      ByAuthorMember(rs[..|rs| - 1], author, x);
      assert rs == rs[..|rs| - 1] + [rs[|rs| - 1]];
    }
  }

  lemma ByAuthorMembers(rs: seq<Report>, author: Option<string>)
    ensures forall x :: x in ByAuthor(rs, author) <==> x in rs && Some(x.yourName) == author
  {
    forall x {
      ByAuthorMember(rs, author, x);
    }
  }

  /** The viewer's reports contribute exactly the tickets the ledger records under their name. */
  lemma {:induction false} ByAuthorTickets(rs: seq<Report>, name: string)
    ensures Tickets(ByAuthor(rs, Some(name))) == Only(Tickets(rs), name)
    decreases |rs|
  {
    if rs != [] {
      var front, x := rs[..|rs| - 1], rs[|rs| - 1];
      ByAuthorTickets(front, name);
      assert Tickets(rs)[..|rs| - 1] == Tickets(front);
      var o := ByAuthor(front, Some(name));
      if x.yourName == name {
        assert Tickets(o + [x]) == Tickets(o) + [Entry(x.yourName, x.ticket)];
      } else {
        assert o + [] == o;
      }
    }
  }

  /** An `undefined` name authored nothing. */
  lemma {:induction false} ByAuthorNobody(rs: seq<Report>)
    ensures ByAuthor(rs, None) == []
    decreases |rs|
  {
    if rs != [] {
      ByAuthorNobody(rs[..|rs| - 1]);
    }
  }

  /** Deleting keeps the other reports in their relative order. */
  lemma {:induction false} WithoutReportAppend(a: seq<Report>, b: seq<Report>, id: string)
    ensures WithoutReport(a + b, id) == WithoutReport(a, id) + WithoutReport(b, id)
    decreases |b|
  {
    if b == [] {
      assert a + b == a;
    } else {
      assert (a + b)[..|a + b| - 1] == a + b[..|b| - 1];
      WithoutReportAppend(a, b[..|b| - 1], id);
    }
  }

  /** A report survives the delete exactly when it is in the list and carries another id. */
  lemma {:induction false} WithoutReportMember(rs: seq<Report>, id: string, x: Report)
    ensures x in WithoutReport(rs, id) <==> x in rs && x.id != id
    decreases |rs|
  {
    if rs != [] {
      WithoutReportMember(rs[..|rs| - 1], id, x);
      assert rs == rs[..|rs| - 1] + [rs[|rs| - 1]];
    }
  }

  /** One row of the report table: the number shown in the `#` column and the report. */
  datatype Row = Row(number: int, report: Report)

  /** `filteredReports.map((report, index) => ... index + 1 ...)` */
  function Numbered(rs: seq<Report>): (rows: seq<Row>)
    ensures |rows| == |rs|
    ensures forall i :: 0 <= i < |rs| ==> rows[i] == Row(i + 1, rs[i])
  {
    if rs == [] then [] else Numbered(rs[..|rs| - 1]) + [Row(|rs|, rs[|rs| - 1])]
  }

  /** The per-name summary `{ count, total }` is the ledger summary of the tickets. */
  function NameSummary(rs: seq<Report>): (acc: seq<Tally>)
    ensures Tallies(acc, Tickets(rs))
    ensures CountSum(acc) == |rs| && TotalSum(acc) == Total(Tickets(rs))
  {
    SummaryCorrect(Tickets(rs));
    TalliesAddUp(Summary(Tickets(rs)), Tickets(rs));
    Summary(Tickets(rs))
  }

  /** The overview component's state. */
  class ReportOverview {
    const store: LocalStore
    const loggedInUser: string
    var reports: seq<Report>
    var currentUserName: Option<string>

    constructor (store: LocalStore, loggedInUser: string)
      ensures this.store == store && this.loggedInUser == loggedInUser
      ensures reports == [] && currentUserName == Some("")
    {
      this.store := store;
      this.loggedInUser := loggedInUser;
      reports := [];
      currentUserName := Some("");
    }

    /** The mount effect: resolve the viewer's full name and load the stored reports. */
    method Load()
      modifies this`reports, this`currentUserName
      ensures reports == store.reports
      ensures var u := FindUser(store.UserList(), loggedInUser);
        currentUserName == if u.Some? then u.value.fullName else old(currentUserName)
    {
      var currentUser := FindUser(store.UserList(), loggedInUser);
      if currentUser.Some? {
        currentUserName := currentUser.value.fullName;
      }
      reports := store.reports;
    }

    /**
     * `handleDelete`; `confirmed` is the answer to the confirmation dialog.
     * Declining changes nothing; confirming drops every report with the id
     * and writes the same list to the store.
     */
    method HandleDelete(reportId: string, confirmed: bool)
      modifies this`reports, store`reports
      ensures !confirmed ==> reports == old(reports) && store.reports == old(store.reports)
      ensures confirmed ==> reports == WithoutReport(old(reports), reportId) && store.reports == reports
    {
      if confirmed {
        var updatedReports := WithoutReport(reports, reportId);
        reports := updatedReports;
        store.reports := updatedReports;
      }
    }

    /** `filteredReports`: the administrator sees every report, anyone else only their own. */
    function FilteredReports(): (r: seq<Report>)
      reads this
      ensures loggedInUser == Admin ==> r == reports
      ensures loggedInUser != Admin ==> forall x :: x in r <==> x in reports && Some(x.yourName) == currentUserName
    {
      if loggedInUser == Admin then reports
      else ByAuthorMembers(reports, currentUserName); ByAuthor(reports, currentUserName)
    }

    /** `totalReports`: how many reports the viewer sees. */
    function TotalReports(): (n: int)
      reads this
      ensures loggedInUser == Admin ==> n == |reports|
      ensures loggedInUser != Admin ==>
        n == if currentUserName.Some? then CountFor(Tickets(reports), currentUserName.value) else 0
    {
      if loggedInUser != Admin then
        if currentUserName.Some? then ByAuthorTickets(reports, currentUserName.value); |FilteredReports()|
        else ByAuthorNobody(reports); |FilteredReports()|
      else |FilteredReports()|
    }

    /** `totalAmount`: the ticket sum of the reports the viewer sees. */
    function TotalAmount(): (t: int)
      reads this
      ensures loggedInUser == Admin ==> t == Total(Tickets(reports))
      ensures loggedInUser != Admin ==>
        t == if currentUserName.Some? then AmountFor(Tickets(reports), currentUserName.value) else 0
    {
      if loggedInUser != Admin then
        if currentUserName.Some? then ByAuthorTickets(reports, currentUserName.value); Total(Tickets(FilteredReports()))
        else ByAuthorNobody(reports); Total(Tickets(FilteredReports()))
      else Total(Tickets(FilteredReports()))
    }

    /** The rows of the report table, numbered from one within the filtered list. */
    function Rows(): (rows: seq<Row>)
      reads this
      ensures |rows| == TotalReports()
      ensures forall i :: 0 <= i < |rows| ==> rows[i].number == i + 1 && rows[i].report == FilteredReports()[i]
    {
      Numbered(FilteredReports())
    }

    /**
     * The administrator's per-name summary, taken over all loaded reports
     * (not the filtered ones): its counts add up to the number of reports
     * and its totals to the ticket sum.
     */
    function UserSummary(): (acc: seq<Tally>)
      reads this
      ensures Tallies(acc, Tickets(reports))
      ensures CountSum(acc) == |reports| && TotalSum(acc) == Total(Tickets(reports))
    {
      NameSummary(reports)
    }
  }
}
