/** The message handler (index.js:229-271): which command a message
    selects, how `!addexpense`/`!addincome` split their arguments
    (index.js:155-157), what `!datetotal` checks, and what each command does
    to the ledger and answers. */
module Commands {
  import opened Seqs
  import opened Text
  import opened Store
  import opened Chart
  import opened DayTotals
  import opened Report

  /** The parts of a Discord message the handler reads. */
  datatype Message = Message(author: string, fromBot: bool, content: string)

  datatype Command = AddExpense | AddIncome | ShowExpense | ShowIncome | GenerateReport | DateTotal

  /** The prefixes the handler tests, in the order it tests them, and the
      command each selects. */
  const Prefixes: seq<string> := ["!addexpense", "!addincome", "!expense", "!income", "!generateReport", "!datetotal"]
  const Selected: seq<Command> := [AddExpense, AddIncome, ShowExpense, ShowIncome, GenerateReport, DateTotal]

  /** The `if (message.author.bot) return;` guard and the `startsWith`
      chain of index.js:230-269. */
  function Route(m: Message): Option<Command> {
    if m.fromBot then None
    else if "!addexpense" <= m.content then Some(AddExpense)
    else if "!addincome" <= m.content then Some(AddIncome)
    else if "!expense" <= m.content then Some(ShowExpense)
    else if "!income" <= m.content then Some(ShowIncome)
    else if "!generateReport" <= m.content then Some(GenerateReport)
    else if "!datetotal" <= m.content then Some(DateTotal)
    else None
  }

  /** Two prefixes of one text: one is a prefix of the other. */
  lemma PrefixesOfOneText(a: string, b: string, s: string)
    ensures a <= s && b <= s ==> a <= b || b <= a
  {
    if a <= s && b <= s {
      if |a| <= |b| {
        assert forall k :: 0 <= k < |a| ==> a[k] == s[k] == b[k];
      } else {
        assert forall k :: 0 <= k < |b| ==> b[k] == s[k] == a[k];
      }
    }
  }

  /** No command prefix is a prefix of another: any two differ in their
      second or fifth character. */
  lemma PrefixesIncomparable()
    ensures forall i, j :: 0 <= i < |Prefixes| && 0 <= j < |Prefixes| && i != j ==> !(Prefixes[i] <= Prefixes[j])
  {
    forall i, j | 0 <= i < |Prefixes| && 0 <= j < |Prefixes| && i != j
      ensures !(Prefixes[i] <= Prefixes[j])
    {
      assert Prefixes[i][1] != Prefixes[j][1] || Prefixes[i][4] != Prefixes[j][4];
    }
  }

  /** So a text starts with at most one of them. */
  lemma PrefixesExclusive(s: string)
    ensures forall i, j :: 0 <= i < j < |Prefixes| && Prefixes[i] <= s ==> !(Prefixes[j] <= s)
  {
    PrefixesIncomparable();
    forall i, j | 0 <= i < j < |Prefixes|
      ensures Prefixes[i] <= s ==> !(Prefixes[j] <= s)
    {
      PrefixesOfOneText(Prefixes[i], Prefixes[j], s);
    }
  }

  /** Since at most one prefix matches, the order of the tests does not
      matter: a human message selects a command exactly when it starts
      with that command's prefix. */
  lemma RouteSelects(m: Message, i: nat)
    requires i < |Prefixes|
    ensures Route(m) == Some(Selected[i]) <==> !m.fromBot && Prefixes[i] <= m.content
  {
    PrefixesExclusive(m.content);
    PrefixesListed();
  }

  /** A message selects nothing exactly when a bot wrote it or it starts
      with none of the prefixes. */
  lemma RouteNone(m: Message)
    ensures Route(m) == None <==> m.fromBot || forall i :: 0 <= i < |Prefixes| ==> !(Prefixes[i] <= m.content)
  {
    PrefixesListed();
  }

  lemma PrefixesListed()
    ensures |Prefixes| == |Selected| == 6
    ensures Prefixes[0] == "!addexpense" && Selected[0] == AddExpense
    ensures Prefixes[1] == "!addincome" && Selected[1] == AddIncome
    ensures Prefixes[2] == "!expense" && Selected[2] == ShowExpense
    ensures Prefixes[3] == "!income" && Selected[3] == ShowIncome
    ensures Prefixes[4] == "!generateReport" && Selected[4] == GenerateReport
    ensures Prefixes[5] == "!datetotal" && Selected[5] == DateTotal
  {
  }

  /** `const [command, amount, ...category] = content.split(' ')` and
      `category.join(' ')`: a missing amount is `undefined`, a missing
      category joins to the empty string. */
  datatype Arguments = Arguments(command: string, amount: Option<string>, category: string)

  function ParseArguments(content: string): Arguments {
    var parts := Split(content);
    Arguments(parts[0],
              if |parts| >= 2 then Some(parts[1]) else None,
              if |parts| >= 2 then Join(parts[2..]) else "")
  }

  /** The arguments put back together with single spaces give the message
      text; with fewer than three tokens the category is empty. */
  lemma ParseArgumentsRebuilds(content: string)
    ensures var a := ParseArguments(content);
      var n := |Split(content)|;
      && (n == 1 ==> a == Arguments(content, None, ""))
      && (n == 2 ==> a.amount.Some? && a.category == "" && content == a.command + " " + a.amount.value)
      && (n >= 3 ==> a.amount.Some? && content == a.command + " " + a.amount.value + " " + a.category)
  {
    var parts := Split(content);
    JoinSplit(content);
    JoinFirstTwo(parts);
    if |parts| == 2 {
      assert parts[2..] == [];
    }
  }

  lemma ConcatAssoc(a: string, b: string, c: string)
    ensures a + (b + c) == (a + b) + c
  {
  }

  /** The first two tokens and the rest, joined. */
  lemma JoinFirstTwo(parts: seq<string>)
    requires |parts| >= 1
    ensures |parts| == 1 ==> Join(parts) == parts[0]
    ensures |parts| == 2 ==> Join(parts) == parts[0] + " " + parts[1]
    ensures |parts| >= 3 ==> Join(parts) == parts[0] + " " + parts[1] + " " + Join(parts[2..])
  {
    assert " " == [Space];
    if |parts| >= 3 {
      var t := parts[1..];
      assert t[0] == parts[1] && t[1..] == parts[2..];
      var j := Join(parts[2..]);
      assert Join(t) == parts[1] + [Space] + j;
      assert Join(parts) == parts[0] + [Space] + Join(t);
      var x, y := parts[0] + [Space], parts[1] + [Space];
      ConcatAssoc(x, y, j);
      ConcatAssoc(x, parts[1], [Space]);
    }
  }

  /** A command word and an amount without spaces, followed by any
      category text, are read back exactly. */
  lemma ParseArgumentsOf(command: string, amount: string, category: string)
    requires SpaceFree(command) && SpaceFree(amount)
    ensures ParseArguments(command + " " + amount + " " + category) == Arguments(command, Some(amount), category)
  {
    var words := Split(category);
    var parts := [command, amount] + words;
    JoinSplit(category);
    assert Join([amount] + words) == amount + " " + category;
    assert Join(parts) == command + " " + amount + " " + category;
    SplitJoin(parts);
    assert parts[2..] == words;
  }

  /** The same without a category: the category is empty. */
  lemma ParseArgumentsOfPair(command: string, amount: string)
    requires SpaceFree(command) && SpaceFree(amount)
    ensures ParseArguments(command + " " + amount) == Arguments(command, Some(amount), "")
  {
    var parts := [command, amount];
    assert Join(parts) == command + " " + amount;
    SplitJoin(parts);
  }

  /** The checks `!datetotal` makes on its arguments (index.js:250-260). */
  datatype DateArgument = WrongCount | Unparsable | Day(date: string)

  /** `args.length !== 2` asks for a date; a date `new Date` cannot parse
      (`dateValid`, supplied) is refused. */
  function ParseDateArgument(content: string, dateValid: string -> bool): DateArgument {
    var args := Split(content);
    if |args| != 2 then WrongCount
    else if !dateValid(args[1]) then Unparsable
    else Day(args[1])
  }

  /** `!datetotal` accepts exactly the messages "<word> <date>" whose date
      parses, and reads that date. */
  lemma DateArgumentAccepts(content: string, dateValid: string -> bool, date: string)
    ensures ParseDateArgument(content, dateValid) == Day(date) <==>
      exists word :: SpaceFree(word) && SpaceFree(date) && dateValid(date) && content == word + " " + date
  {
    var args := Split(content);
    if ParseDateArgument(content, dateValid) == Day(date) {
      JoinSplit(content);
      assert content == args[0] + " " + date;
    }
    if exists word :: SpaceFree(word) && SpaceFree(date) && dateValid(date) && content == word + " " + date {
      var word :| SpaceFree(word) && SpaceFree(date) && dateValid(date) && content == word + " " + date;
      assert Join([word, date]) == content;
      SplitJoin([word, date]);
    }
  }

  /** What the bot answers. Chinese wording and number formatting are not
      modelled; each reply carries the values it shows. */
  datatype Reply =
    | NoReply
    | Recorded(kind: string, amount: Option<string>, category: string)
    | NoRecords(user: string, kind: string)
    | Listing(user: string, kind: string, rows: seq<Row>)
    | WeekChart(chart: Buckets)
    | AskForDate
    | InvalidDate
    | DayReport(date: string, totals: Totals, net: int)

  /** What the handler takes from its surroundings: the clock (as an ISO
      timestamp), SQLite's conversion of the amount token, the date parser,
      and the local-day bounds of a date. */
  datatype Env = Env(
    now: string,
    amountOf: Option<string> -> int,
    dateValid: string -> bool,
    dayBounds: string -> (string, string))

  /** `handleTransaction` (index.js:155-171). */
  function Record(l: Ledger, m: Message, kind: string, env: Env): (Ledger, Reply) {
    var a := ParseArguments(m.content);
    (Insert(l, m.author, kind, env.amountOf(a.amount), a.category, env.now), Recorded(kind, a.amount, a.category))
  }

  /** `showTransactions` (index.js:172-190). */
  function Show(l: Ledger, m: Message, kind: string): Reply {
    var rows := ListByUserAndKind(l, m.author, kind);
    if |rows| == 0 then NoRecords(m.author, kind) else Listing(m.author, kind, rows)
  }

  /** The `!datetotal` branch (index.js:249-271). */
  function DayTotal(l: Ledger, m: Message, env: Env): Reply {
    match ParseDateArgument(m.content, env.dateValid)
    case WrongCount => AskForDate
    case Unparsable => InvalidDate
    case Day(d) =>
      var t := DateTotals(l, env.dayBounds(d).0, env.dayBounds(d).1);
      DayReport(d, t, Net(t))
  }

  /** What a selected command does: the ledger afterwards and the reply.
      `!generateReport` charts what `generateChart()`, called without
      bounds, returns. */
  function Run(l: Ledger, m: Message, c: Command, env: Env): (Ledger, Reply) {
    match c
    case AddExpense => Record(l, m, Expense, env)
    case AddIncome => Record(l, m, Income, env)
    case ShowExpense => (l, Show(l, m, Expense))
    case ShowIncome => (l, Show(l, m, Income))
    case GenerateReport => (l, WeekChart(ReportAsWritten(l)))
    case DateTotal => (l, DayTotal(l, m, env))
  }

  /** One message: the ledger afterwards and the reply. */
  function Handle(l: Ledger, m: Message, env: Env): (res: (Ledger, Reply))
    ensures Valid(l) ==> Valid(res.0)
    ensures res.0 == l || (|res.0.rows| == |l.rows| + 1 && res.0.rows[..|l.rows|] == l.rows)
  {
    match Route(m)
    case None => (l, NoReply)
    case Some(c) => Run(l, m, c, env)
  }

  /** A human message starting with a command's prefix runs that command. */
  lemma HandleRuns(l: Ledger, m: Message, env: Env, i: nat)
    requires i < |Prefixes| && !m.fromBot && Prefixes[i] <= m.content
    ensures Handle(l, m, env) == Run(l, m, Selected[i], env)
  {
    RouteSelects(m, i);
  }

  /** Messages from bots and messages that start with no command are
      ignored: no reply, no change. */
  lemma HandleIgnores(l: Ledger, m: Message, env: Env)
    requires m.fromBot || forall i :: 0 <= i < |Prefixes| ==> !(Prefixes[i] <= m.content)
    ensures Handle(l, m, env) == (l, NoReply)
  {
    RouteNone(m);
  }

  /** Only the two add commands write: every other message leaves the
      ledger as it was. */
  lemma HandleReadOnly(l: Ledger, m: Message, env: Env)
    requires !(!m.fromBot && ("!addexpense" <= m.content || "!addincome" <= m.content))
    ensures Handle(l, m, env).0 == l
  {
  }

  /** `!addexpense`/`!addincome` append exactly one row: the author, the
      type, the converted amount token, the joined category words and the
      current time. The reply echoes the amount token and the category. */
  lemma HandleAdds(l: Ledger, m: Message, env: Env, kind: string)
    requires !m.fromBot
    requires (kind == Expense && "!addexpense" <= m.content) || (kind == Income && "!addincome" <= m.content)
    ensures var a := ParseArguments(m.content);
      var res := Handle(l, m, env);
      && res.0.rows == l.rows + [Row(l.nextId, m.author, kind, env.amountOf(a.amount), a.category, env.now)]
      && res.1 == Recorded(kind, a.amount, a.category)
  {
    PrefixesListed();
    if kind == Expense {
      HandleRuns(l, m, env, 0);
    } else {
      HandleRuns(l, m, env, 1);
    }
  }

  lemma HandleAddsInserts(l: Ledger, m: Message, env: Env, kind: string)
    requires !m.fromBot
    requires (kind == Expense && "!addexpense" <= m.content) || (kind == Income && "!addincome" <= m.content)
    ensures var a := ParseArguments(m.content);
      Handle(l, m, env).0 == Insert(l, m.author, kind, env.amountOf(a.amount), a.category, env.now)
  {
    PrefixesListed();
    if kind == Expense {
      HandleRuns(l, m, env, 0);
    } else {
      HandleRuns(l, m, env, 1);
    }
  }

  /** `!expense`/`!income` list the author's rows of that type, in table
      order, or say there are none; the ledger is unchanged. */
  lemma HandleShows(l: Ledger, m: Message, env: Env, kind: string)
    requires !m.fromBot
    requires (kind == Expense && "!expense" <= m.content) || (kind == Income && "!income" <= m.content)
    ensures var rows := ListByUserAndKind(l, m.author, kind);
      Handle(l, m, env) == (l, if |rows| == 0 then NoRecords(m.author, kind) else Listing(m.author, kind, rows))
  {
    PrefixesListed();
    if kind == Expense {
      HandleRuns(l, m, env, 2);
    } else {
      HandleRuns(l, m, env, 3);
    }
  }

  /** After an author records a transaction, listing that author's
      transactions of the same type shows it once, after the earlier ones. */
  lemma AddThenShow(l: Ledger, add: Message, show: Message, env: Env, kind: string)
    requires Valid(l)
    requires !add.fromBot && !show.fromBot && add.author == show.author
    requires (kind == Expense && "!addexpense" <= add.content && "!expense" <= show.content)
          || (kind == Income && "!addincome" <= add.content && "!income" <= show.content)
    ensures var l' := Handle(l, add, env).0;
      var a := ParseArguments(add.content);
      var added := Row(l.nextId, add.author, kind, env.amountOf(a.amount), a.category, env.now);
      && Handle(l', show, env) == (l', Listing(show.author, kind, ListByUserAndKind(l, show.author, kind) + [added]))
      && multiset(ListByUserAndKind(l', show.author, kind))[added] == 1
  {
    var a := ParseArguments(add.content);
    var l' := Handle(l, add, env).0;
    HandleAddsInserts(l, add, env, kind);
    InsertThenList(l, add.author, kind, env.amountOf(a.amount), a.category, env.now, show.author, kind);
    var listed := ListByUserAndKind(l', show.author, kind);
    assert |listed| > 0;
    HandleShows(l', show, env, kind);
    assert Show(l', show, kind) == Listing(show.author, kind, listed);
  }

  /** `!datetotal <date>` answers the totals of the rows dated inside the
      window `env.dayBounds(date)` (by `DateTotals`, the income and the
      expense sums) and their difference, and writes nothing. */
  lemma HandleDayTotal(l: Ledger, m: Message, env: Env, date: string)
    requires !m.fromBot && "!datetotal" <= m.content
    requires ParseDateArgument(m.content, env.dateValid) == Day(date)
    ensures var t := DateTotals(l, env.dayBounds(date).0, env.dayBounds(date).1);
      Handle(l, m, env) == (l, DayReport(date, t, Net(t)))
  {
    HandleDateTotalRuns(l, m, env);
    DayTotalReports(l, m, env, date);
  }

  lemma HandleDateTotalRuns(l: Ledger, m: Message, env: Env)
    requires !m.fromBot && "!datetotal" <= m.content
    ensures Handle(l, m, env) == (l, DayTotal(l, m, env))
  {
    PrefixesListed();
    HandleRuns(l, m, env, 5);
  }

  lemma DayTotalReports(l: Ledger, m: Message, env: Env, date: string)
    requires ParseDateArgument(m.content, env.dateValid) == Day(date)
    ensures var t := DateTotals(l, env.dayBounds(date).0, env.dayBounds(date).1);
      DayTotal(l, m, env) == DayReport(date, t, Net(t))
  {
  }

  /** `!datetotal` with other than one argument asks for a date, whatever
      the ledger holds. */
  lemma HandleDayTotalArity(l: Ledger, m: Message, env: Env)
    requires !m.fromBot && "!datetotal" <= m.content
    requires |Split(m.content)| != 2
    ensures Handle(l, m, env) == (l, AskForDate)
  {
    PrefixesListed();
    HandleRuns(l, m, env, 5);
  }

  /** As written, `!generateReport` announces this week's chart but sends
      one with no date labels and only the nine empty preset datasets,
      whatever the ledger holds. */
  lemma HandleReportAsWritten(l: Ledger, m: Message, env: Env)
    requires !m.fromBot && "!generateReport" <= m.content
    ensures Handle(l, m, env) == (l, WeekChart(ReportAsWritten(l)))
    ensures ReportAsWritten(l).labels == []
    ensures forall k :: k in ReportAsWritten(l).data ==> k in Presets && ReportAsWritten(l).data[k] == []
  {
    PrefixesListed();
    HandleRuns(l, m, env, 4);
    ReportAlwaysEmpty(l);
  }

  /** The handler with `!generateReport` charting the week [lo, hi] its
      reply announces; every other message is handled as before. */
  function HandleCorrected(l: Ledger, m: Message, env: Env, week: (string, string)): (res: (Ledger, Reply))
    ensures Valid(l) ==> Valid(res.0)
    ensures res.0 == l || (|res.0.rows| == |l.rows| + 1 && res.0.rows[..|l.rows|] == l.rows)
  {
    if Route(m) == Some(GenerateReport) then (l, WeekChart(WeekReport(l, week.0, week.1)))
    else Handle(l, m, env)
  }

  /** Corrected, the handler differs only in the report: every message that
      does not start with `!generateReport` gets the same answer and the
      same ledger. */
  lemma HandleCorrectedAgrees(l: Ledger, m: Message, env: Env, week: (string, string))
    requires m.fromBot || !("!generateReport" <= m.content)
    ensures HandleCorrected(l, m, env, week) == Handle(l, m, env)
  {
    PrefixesListed();
    RouteSelects(m, 4);
  }

  /** Corrected, `!generateReport` charts exactly the rows dated inside the
      week, in date order, and changes nothing. */
  lemma HandleReport(l: Ledger, m: Message, env: Env, week: (string, string))
    requires !m.fromBot && "!generateReport" <= m.content
    ensures HandleCorrected(l, m, env, week) == (l, WeekChart(WeekReport(l, week.0, week.1)))
    ensures var (lo, hi) := week;
      && multiset(ChartQuery(l, Some(lo), Some(hi))) == multiset(RowsInWindow(l, lo, hi))
      && SortedByDate(ChartQuery(l, Some(lo), Some(hi)))
  {
    PrefixesListed();
    RouteSelects(m, 4);
    ChartQueryWindow(l, week.0, week.1);
  }
}
