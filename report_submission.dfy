/// The report form (`ReportSubmission`): prefilling from the logged-in user
/// and from the calculator hand-off, appending a submitted report, the
/// administrator's summary per author and colleague, and the amount
/// formatter.
module ReportSubmission {
  import opened Records
  import opened Ledger
  import opened Text

  /** The form state `newReport`. */
  datatype ReportForm = ReportForm(
    yourName: string, rank: string, colleagueName: string, colleagueRank: string,
    caseDescription: string, ticket: int, imageLink: string)

  /** The text the calculator hand-off puts into the case description. */
  function CaseDescription(selectedServices: seq<string>): string
  {
    Join(selectedServices, ", ")
  }

  /** `` `${report.yourName} (${report.colleagueName} - ${report.colleagueRank})` `` */
  function SummaryKey(r: Report): string
  {
    r.yourName + " (" + r.colleagueName + " - " + r.colleagueRank + ")"
  }

  /** The editable text inputs of the report form (name and rank are read-only). */
  datatype TextField = ColleagueNameField | ColleagueRankField | CaseDescriptionField | ImageLinkField

  /** The value a text input shows. */
  function TextOf(f: ReportForm, field: TextField): string
  {
    match field
    case ColleagueNameField => f.colleagueName
    case ColleagueRankField => f.colleagueRank
    case CaseDescriptionField => f.caseDescription
    case ImageLinkField => f.imageLink
  }

  /** `{ ...prev, [name]: value }` for a text input: that input shows `value`, nothing else changes. */
  function WithText(f: ReportForm, field: TextField, value: string): (g: ReportForm)
    ensures TextOf(g, field) == value
    ensures forall other: TextField :: other != field ==> TextOf(g, other) == TextOf(f, other)
    ensures g.yourName == f.yourName && g.rank == f.rank && g.ticket == f.ticket
  {
    match field
    case ColleagueNameField => f.(colleagueName := value)
    case ColleagueRankField => f.(colleagueRank := value)
    case CaseDescriptionField => f.(caseDescription := value)
    case ImageLinkField => f.(imageLink := value)
  }

  /** What the summary keeps of a report: its key, its ticket and its image link. */
  datatype Filed = Filed(key: string, ticket: int, imageLink: string)

  /** Each report as it is filed in the summary. */
  function Filing(rs: seq<Report>): (fs: seq<Filed>)
    ensures |fs| == |rs|
    ensures forall i :: 0 <= i < |rs| ==> fs[i] == Filed(SummaryKey(rs[i]), rs[i].ticket, rs[i].imageLink)
  {
    if rs == [] then [] else Filing(rs[..|rs| - 1]) + [Filed(SummaryKey(rs[|rs| - 1]), rs[|rs| - 1].ticket, rs[|rs| - 1].imageLink)]
  }

  /** Each filed report as the ticket amount it credits to its key. */
  function Amounts(fs: seq<Filed>): (es: seq<Entry>)
    ensures |es| == |fs|
    ensures forall i :: 0 <= i < |fs| ==> es[i] == Entry(fs[i].key, fs[i].ticket)
  {
    if fs == [] then [] else Amounts(fs[..|fs| - 1]) + [Entry(fs[|fs| - 1].key, fs[|fs| - 1].ticket)]
  }

  /** The non-empty image links of the reports filed under `key`, in list order. */
  function ImagesFor(fs: seq<Filed>, key: string): seq<string>
  {
    if fs == [] then []
    else
      var f := fs[|fs| - 1];
      ImagesFor(fs[..|fs| - 1], key) + (if f.key == key && f.imageLink != "" then [f.imageLink] else [])
  }

  /** A link is listed under `key` exactly when some report filed under `key` carries it, and it is not empty. */
  lemma {:induction false} ImagesForMember(fs: seq<Filed>, key: string, link: string)
    ensures link in ImagesFor(fs, key) <==>
      link != "" && exists i :: 0 <= i < |fs| && fs[i].key == key && fs[i].imageLink == link
    decreases |fs|
  {
    if fs != [] {
      var front := fs[..|fs| - 1];
      ImagesForMember(front, key, link);
      if exists i :: 0 <= i < |front| && front[i].key == key && front[i].imageLink == link {
        var i :| 0 <= i < |front| && front[i].key == key && front[i].imageLink == link;
        assert fs[i] == front[i];
      }
      if exists i :: 0 <= i < |fs| && fs[i].key == key && fs[i].imageLink == link {
        var i :| 0 <= i < |fs| && fs[i].key == key && fs[i].imageLink == link;
        if i < |front| {
          assert front[i] == fs[i];
        }
      }
    }
  }

  lemma AmountsSnoc(fs: seq<Filed>, f: Filed)
    ensures Amounts(fs + [f]) == Amounts(fs) + [Entry(f.key, f.ticket)]
  {
  }

  lemma ImagesForSnoc(fs: seq<Filed>, f: Filed, key: string)
    ensures ImagesFor(fs + [f], key) == ImagesFor(fs, key) + (if f.key == key && f.imageLink != "" then [f.imageLink] else [])
  {
    assert (fs + [f])[..|fs|] == fs;
  }

  /** No key lists more images than it has reports. */
  lemma {:induction false} ImagesAtMostCount(fs: seq<Filed>, key: string)
    ensures |ImagesFor(fs, key)| <= CountFor(Amounts(fs), key)
    decreases |fs|
  {
    if fs != [] {
      var front, f := fs[..|fs| - 1], fs[|fs| - 1];
      ImagesAtMostCount(front, key);
      assert front + [f] == fs;
      AmountsSnoc(front, f);
      AmountForSnoc(Amounts(front), Entry(f.key, f.ticket), key);
    }
  }

  /** One entry `[key, { count, total, images }]` of `userReportSummary`. */
  datatype KeySummary = KeySummary(key: string, count: int, total: int, images: seq<string>)

  /** The entry the summary should hold for `key` after the reports `fs`. */
  function Expected(fs: seq<Filed>, key: string): KeySummary
  {
    KeySummary(key, CountFor(Amounts(fs), key), AmountFor(Amounts(fs), key), ImagesFor(fs, key))
  }

  /**
   * `acc` is the summary of `fs`: one entry per key in order of first
   * appearance, holding that key's report count, ticket sum and image links.
   */
  predicate Summarizes(acc: seq<KeySummary>, fs: seq<Filed>)
  {
    SummarizesFor(acc, Keys(Amounts(fs)), fs)
  }

  /** `acc` holds, in order, the expected entry of each key of `ks` after the reports `fs`. */
  predicate SummarizesFor(acc: seq<KeySummary>, ks: seq<string>, fs: seq<Filed>)
  {
    && |acc| == |ks|
    && forall i :: 0 <= i < |acc| ==> acc[i] == Expected(fs, ks[i])
  }

  /** The position of `key` in the summary, or its length when the key is new (`!acc[key]`). */
  function RowOf(acc: seq<KeySummary>, key: string): (j: nat)
    ensures j <= |acc|
    ensures j < |acc| ==> acc[j].key == key
    ensures j == |acc| ==> forall i :: 0 <= i < |acc| ==> acc[i].key != key
  {
    if acc == [] then 0
    else if acc[|acc| - 1].key == key then |acc| - 1
    else
      var j := RowOf(acc[..|acc| - 1], key);
      if j == |acc| - 1 then |acc| else j
  }

  /** `count++`, `total += report.ticket` and, for a non-empty link, `images.push(report.imageLink)`. */
  function Bumped(row: KeySummary, f: Filed): KeySummary
  {
    row.(count := row.count + 1, total := row.total + f.ticket,
         images := if f.imageLink != "" then row.images + [f.imageLink] else row.images)
  }

  /** Filing one more report changes only the expected entry of its own key, by one bump. */
  lemma ExpectedSnoc(fs: seq<Filed>, f: Filed, key: string)
    ensures Expected(fs + [f], key) == if f.key == key then Bumped(Expected(fs, key), f) else Expected(fs, key)
  {
    AmountsSnoc(fs, f);
    AmountForSnoc(Amounts(fs), Entry(f.key, f.ticket), key);
    ImagesForSnoc(fs, f, key);
  }

  /** The first `n + 1` reports file as the first `n` and then report `n`. */
  lemma FilingPrefix(rs: seq<Report>, n: nat)
    requires n < |rs|
    ensures Filing(rs)[..n + 1] == Filing(rs)[..n] + [Filed(SummaryKey(rs[n]), rs[n].ticket, rs[n].imageLink)]
  {
    var fs := Filing(rs);
    PrefixSnoc(fs, n);
  }

  lemma PrefixSnoc<T>(s: seq<T>, n: nat)
    requires n < |s|
    ensures s[..n + 1] == s[..n] + [s[n]]
  {
  }

  /** Creating a row and then bumping it in place is appending the bumped row. */
  lemma BumpLast(acc: seq<KeySummary>, row: KeySummary, f: Filed)
    ensures (acc + [row])[|acc| := Bumped((acc + [row])[|acc|], f)] == acc + [Bumped(row, f)]
  {
  }

  /** One step of the reduce, with the key already in the summary. */
  lemma SummaryStepKnown(acc: seq<KeySummary>, fs: seq<Filed>, f: Filed, j: nat)
    requires Summarizes(acc, fs)
    requires j < |acc| && acc[j].key == f.key
    ensures Summarizes(acc[j := Bumped(acc[j], f)], fs + [f])
  {
    var ks := Keys(Amounts(fs));
    AmountsSnoc(fs, f);
    KeysSnoc(Amounts(fs), Entry(f.key, f.ticket));
    assert ks[j] == f.key;
    SummaryRowsKnown(acc, ks, fs, f, j);
  }

  /** The same step over an explicit list of distinct keys. */
  lemma SummaryRowsKnown(acc: seq<KeySummary>, ks: seq<string>, fs: seq<Filed>, f: Filed, j: nat)
    requires SummarizesFor(acc, ks, fs) && Distinct(ks)
    requires j < |ks| && ks[j] == f.key
    ensures SummarizesFor(acc[j := Bumped(acc[j], f)], ks, fs + [f])
  {
    var acc' := acc[j := Bumped(acc[j], f)];
    forall i | 0 <= i < |acc'| ensures acc'[i] == Expected(fs + [f], ks[i]) {
      ExpectedSnoc(fs, f, ks[i]);
      if i != j {
        assert ks[i] != f.key;
      }
    }
  }

  /** A key no report is filed under expects an empty entry. */
  lemma ExpectedAbsent(fs: seq<Filed>, key: string)
    requires key !in Keys(Amounts(fs))
    ensures Expected(fs, key) == KeySummary(key, 0, 0, [])
  {
    AbsentKey(Amounts(fs), key);
    ImagesAtMostCount(fs, key);
  }

  /** One step of the reduce, with a key seen for the first time. */
  lemma SummaryStepNew(acc: seq<KeySummary>, fs: seq<Filed>, f: Filed)
    requires Summarizes(acc, fs)
    requires forall i :: 0 <= i < |acc| ==> acc[i].key != f.key
    ensures Summarizes(acc + [Bumped(KeySummary(f.key, 0, 0, []), f)], fs + [f])
  {
    var ks := Keys(Amounts(fs));
    forall i | 0 <= i < |ks| ensures ks[i] != f.key {
      assert acc[i].key == ks[i];
    }
    ExpectedAbsent(fs, f.key);
    AmountsSnoc(fs, f);
    KeysSnoc(Amounts(fs), Entry(f.key, f.ticket));
    var ks' := ks + [f.key];
    var acc' := acc + [Bumped(KeySummary(f.key, 0, 0, []), f)];
    forall i | 0 <= i < |acc'| ensures acc'[i] == Expected(fs + [f], ks'[i]) {
      ExpectedSnoc(fs, f, ks'[i]);
    }
  }

  /** The count and ticket columns of the summary, as ledger rows. */
  function AsTallies(acc: seq<KeySummary>): (ts: seq<Tally>)
    ensures |ts| == |acc|
    ensures forall i :: 0 <= i < |acc| ==> ts[i] == Tally(acc[i].key, acc[i].count, acc[i].total)
  {
    if acc == [] then [] else AsTallies(acc[..|acc| - 1]) + [Tally(acc[|acc| - 1].key, acc[|acc| - 1].count, acc[|acc| - 1].total)]
  }

  /** The summary's counts add up to the number of reports and its totals to the ticket sum. */
  lemma SummaryAddsUp(acc: seq<KeySummary>, fs: seq<Filed>)
    requires Summarizes(acc, fs)
    ensures CountSum(AsTallies(acc)) == |fs|
    ensures TotalSum(AsTallies(acc)) == Total(Amounts(fs))
  {
    TalliesAddUp(AsTallies(acc), Amounts(fs));
  }

  /**
   * `formatAmount`: `Math.floor(amount).toString()` with a space inserted
   * before every group of three digits counted from the right, then `$`.
   */
  function FormatAmount(amount: int): string
  {
    (if amount < 0 then "-" + RegexSpaced(Digits(-amount)) else RegexSpaced(Digits(amount))) + "$"
  }

  /**
   * For a non-negative amount the text ends in `$`; deleting its spaces gives
   * back the decimal digits, which denote the amount; and it splits at the
   * spaces into a first group of one to three digits followed by groups of
   * exactly three.
   */
  lemma FormatAmountShape(amount: nat)
    ensures var s := FormatAmount(amount);
      && |s| >= 2 && s[|s| - 1] == '$'
      && RemoveSpaces(s[..|s| - 1]) == Digits(amount)
      && Value(RemoveSpaces(s[..|s| - 1])) == amount
    ensures var s := FormatAmount(amount); var groups := Split(s[..|s| - 1], ' ');
      && 1 <= |groups[0]| <= 3
      && (forall i :: 1 <= i < |groups| ==> |groups[i]| == 3)
      && (forall i :: 0 <= i < |groups| ==> AllDigits(groups[i]))
  {
    var d := Digits(amount);
    var s := FormatAmount(amount);
    assert s[..|s| - 1] == RegexSpaced(d);
    RegexSpacedGroups(d);
    DigitsValue(amount);
    ChunksOfDigits(d);
    ChunkSizes(d);
  }

  /** A negative amount is formatted as its magnitude with a leading minus sign. */
  lemma FormatAmountNegative(amount: int)
    requires amount < 0
    ensures FormatAmount(amount) == "-" + FormatAmount(-amount)
  {
  }

  /** 999 is shown as `999$`: three digits stay one group. */
  lemma FormatAmountThreeDigits()
    ensures FormatAmount(999) == "999$"
  {
    assert Digits(99) == "99";
    assert Digits(999) == "999";
    RegexSpacedIsJoinedChunks("999");
  }

  /** 1234 is shown as `1 234$`. */
  lemma FormatAmountFourDigits()
    ensures FormatAmount(1234) == "1 234$"
  {
    assert Digits(12) == "12";
    assert Digits(123) == "123";
    assert Digits(1234) == "1234";
    RegexSpacedIsJoinedChunks("1234");
    assert "1234"[..1] == "1" && "1234"[1..] == "234";
    assert Chunks("1234") == ["1", "234"];
    assert Join(["1", "234"], " ") == "1 234";
  }

  /** -1500 is shown as `-1 500$`: no space after the minus sign. */
  lemma FormatAmountNegativeExample()
    ensures FormatAmount(-1500) == "-1 500$"
  {
    assert Digits(15) == "15";
    assert Digits(150) == "150";
    assert Digits(1500) == "1500";
    RegexSpacedIsJoinedChunks("1500");
    assert "1500"[..1] == "1" && "1500"[1..] == "500";
    assert Chunks("1500") == ["1", "500"];
    assert Join(["1", "500"], " ") == "1 500";
  }

  class ReportSubmission {
    const store: LocalStore
    const loggedInUser: string
    var reports: seq<Report>
    var newReport: ReportForm

    /** The initial state: the description and ticket come from the calculator hand-off props. */
    constructor (store: LocalStore, loggedInUser: string, selectedServices: seq<string>, totalAmount: int)
      ensures this.store == store && this.loggedInUser == loggedInUser
      ensures reports == []
      ensures newReport == ReportForm("", "", "", "", CaseDescription(selectedServices), totalAmount, "")
    {
      this.store := store;
      this.loggedInUser := loggedInUser;
      reports := [];
      newReport := ReportForm("", "", "", "", CaseDescription(selectedServices), totalAmount, "");
    }

    /**
     * The mount effect: load the stored reports and copy the logged-in user's
     * full name and rank (or `""` where they are missing) into the form.
     */
    method Load()
      modifies this`reports, this`newReport
      ensures reports == store.reports
      ensures var u := FindUser(store.UserList(), loggedInUser);
        newReport == if u.Some? then old(newReport).(yourName := u.value.fullName.GetOr(""), rank := u.value.rank.GetOr(""))
                     else old(newReport)
    {
      var storedReports := store.reports;
      reports := storedReports;
      var currentUser := FindUser(store.UserList(), loggedInUser);
      if currentUser.Some? {
        newReport := newReport.(yourName := currentUser.value.fullName.GetOr(""), rank := currentUser.value.rank.GetOr(""));
      }
    }

    /** The effect on new props: the selection becomes the description and the total the ticket. */
    method SyncProps(selectedServices: seq<string>, totalAmount: int)
      modifies this`newReport
      ensures newReport == old(newReport).(caseDescription := CaseDescription(selectedServices), ticket := totalAmount)
    {
      newReport := newReport.(caseDescription := CaseDescription(selectedServices), ticket := totalAmount);
    }

    /** `handleInputChange` for a text input: only that field takes the typed value. */
    method HandleTextChange(field: TextField, value: string)
      modifies this`newReport
      ensures newReport == WithText(old(newReport), field, value)
    {
      newReport := WithText(newReport, field, value);
    }

    /**
     * `handleInputChange` for the ticket input. `ticket` is the typed text
     * after `Number.parseFloat(value) || 0`; parsing is not modelled.
     */
    method HandleTicketChange(ticket: int)
      modifies this`newReport
      ensures newReport == old(newReport).(ticket := ticket)
    {
      newReport := newReport.(ticket := ticket);
    }

    /**
     * `handleSubmit`: append the form as a report to the component's list,
     * store that list, and clear everything but the submitter's name and
     * rank. `id` and `date` are the clock readings the source takes.
     */
    method HandleSubmit(id: string, date: string)
      modifies this`reports, this`newReport, store`reports
      ensures var f := old(newReport);
        reports == old(reports) + [Report(id, f.yourName, f.rank, f.colleagueName, f.colleagueRank,
                                          f.caseDescription, f.ticket, f.imageLink, date)]
      ensures store.reports == reports
      ensures newReport == ReportForm(old(newReport).yourName, old(newReport).rank, "", "", "", 0, "")
    {
      var f := newReport;
      var reportToAdd := Report(id, f.yourName, f.rank, f.colleagueName, f.colleagueRank,
                                f.caseDescription, f.ticket, f.imageLink, date);
      var updatedReports := reports + [reportToAdd];
      reports := updatedReports;
      store.reports := updatedReports;
      newReport := newReport.(colleagueName := "", colleagueRank := "", caseDescription := "", ticket := 0, imageLink := "");
    }

    /**
     * `userReportSummary`: the reports reduced, in list order, into an
     * object keyed by author and colleague whose entries are updated in place.
     */
    method UserReportSummary() returns (acc: seq<KeySummary>)
      ensures Summarizes(acc, Filing(reports))
      ensures CountSum(AsTallies(acc)) == |reports|
      ensures TotalSum(AsTallies(acc)) == Total(Amounts(Filing(reports)))
    {
      ghost var fs := Filing(reports);
      acc := [];
      var n := 0;
      while n < |reports|
        invariant 0 <= n <= |reports|
        invariant Summarizes(acc, fs[..n])
      {
        var report := reports[n];
        var filed := Filed(SummaryKey(report), report.ticket, report.imageLink);
        FilingPrefix(reports, n);
        var j := RowOf(acc, filed.key);
        if j == |acc| {
          SummaryStepNew(acc, fs[..n], filed);
          BumpLast(acc, KeySummary(filed.key, 0, 0, []), filed);
          acc := acc + [KeySummary(filed.key, 0, 0, [])];
        } else {
          SummaryStepKnown(acc, fs[..n], filed, j);
        }
        acc := acc[j := Bumped(acc[j], filed)];
        n := n + 1;
      }
      assert fs[..n] == fs;
      SummaryAddsUp(acc, fs);
    }
  }
}
