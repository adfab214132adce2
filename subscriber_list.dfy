/** The admin subscriber list: the CSV export of all subscribers and the
    e-mail search. The export is plain `join`s: no field is quoted, and
    lines are separated by a single line feed with none after the last. */
module SubscriberList {
  import opened Common
  import opened Text

  /** A row of `subscribers`; `createdAt` is the timestamp text as stored. */
  datatype Subscriber = Subscriber(id: string, email: string, createdAt: string)

  /** The column titles of the export. */
  const Headers: seq<string> := ["ID", "Email", "Joined At"]

  /** The header line of the export: the titles joined by commas. */
  function Header(): string
  {
    Join(Headers, ",")
  }

  /** One subscriber's line: id, e-mail and join time separated by commas. */
  function Row(s: Subscriber): string
  {
    Join([s.id, s.email, s.createdAt], ",")
  }

  /** Joining three fields puts the separator between each neighbouring pair. */
  lemma JoinThree(a: string, b: string, c: string, sep: string)
    ensures Join([a, b, c], sep) == a + sep + (b + sep + c)
  {
    assert [a, b, c][1..] == [b, c];
    assert [b, c][1..] == [c];
    assert Join([c], sep) == c;
    assert Join([b, c], sep) == b + sep + c;
  }

  function Rows(subs: seq<Subscriber>): (r: seq<string>)
    ensures |r| == |subs|
    ensures forall i :: 0 <= i < |subs| ==> r[i] == Row(subs[i])
  {
    seq(|subs|, i requires 0 <= i < |subs| => Row(subs[i]))
  }

  /** `handleExportCSV`'s text: the header, then one line per subscriber. */
  function CsvContent(subs: seq<Subscriber>): string
  {
    Join([Header()] + Rows(subs), "\n")
  }

  /** The screen's state: the loaded list and the search box. */
  datatype View = View(subscribers: seq<Subscriber>, search: string)

  /** What the export button downloads. */
  function Export(v: View): string
  {
    CsvContent(v.subscribers)
  }

  /** `filteredSubscribers`: the e-mail, lower-cased, includes the lower-cased term. */
  predicate Matches(s: Subscriber, search: string)
  {
    Contains(ToLower(s.email), ToLower(search))
  }

  /** The subscribers whose lower-cased e-mail includes `term`, in order. */
  function WithTerm(subs: seq<Subscriber>, term: string): seq<Subscriber>
  {
    Filter(subs, (s: Subscriber) => Contains(ToLower(s.email), term))
  }

  function Filtered(v: View): (r: seq<Subscriber>)
    ensures forall s :: s in r <==> s in v.subscribers && Matches(s, v.search)
    ensures |r| <= |v.subscribers|
  {
    WithTerm(v.subscribers, ToLower(v.search))
  }

  predicate NoNewline(s: Subscriber)
  {
    '\n' !in s.id && '\n' !in s.email && '\n' !in s.createdAt
  }

  lemma RowHasNoNewline(s: Subscriber)
    requires NoNewline(s)
    ensures '\n' !in Row(s)
  {
    JoinThree(s.id, s.email, s.createdAt, ",");
    var t := s.email + "," + s.createdAt;
    assert Row(s) == s.id + "," + t;
    assert '\n' !in t;
  }

  lemma HeaderHasNoNewline()
    ensures '\n' !in Header()
  {
    forall i | 0 <= i < |Headers| ensures '\n' !in Headers[i] {
    }
    var h := Subscriber("ID", "Email", "Joined At");
    assert Row(h) == Header();
    RowHasNoNewline(h);
  }

  /** No line of the export holds a line feed when no field does. */
  lemma LinesHaveNoNewline(subs: seq<Subscriber>)
    requires forall i :: 0 <= i < |subs| ==> NoNewline(subs[i])
    ensures forall i :: 0 <= i < |[Header()] + Rows(subs)| ==> '\n' !in ([Header()] + Rows(subs))[i]
  {
    var lines := [Header()] + Rows(subs);
    HeaderHasNoNewline();
    forall i | 0 <= i < |lines| ensures '\n' !in lines[i] {
      if i > 0 {
        RowHasNoNewline(subs[i - 1]);
      }
    }
  }

  /** Read back line by line, the export is the header followed by exactly one
      line per subscriber, in list order (when no field holds a line feed):
      the line count is the subscriber count plus one. */
  lemma CsvLines(subs: seq<Subscriber>)
    requires forall i :: 0 <= i < |subs| ==> NoNewline(subs[i])
    ensures Split(CsvContent(subs), '\n') == [Header()] + Rows(subs)
    ensures |Split(CsvContent(subs), '\n')| == |subs| + 1
    ensures Split(CsvContent(subs), '\n')[0] == Header()
    ensures forall i :: 0 <= i < |subs| ==> Split(CsvContent(subs), '\n')[i + 1] == Row(subs[i])
  {
    LinesHaveNoNewline(subs);
    SplitJoin([Header()] + Rows(subs), '\n');
  }

  /** With no subscribers the export is the header alone. */
  lemma EmptyExport()
    ensures CsvContent([]) == "ID,Email,Joined At"
  {
    assert [Header()] + Rows([]) == [Header()];
    HeaderText();
  }

  /** Cut at commas, a line is the columns of its id, then of its e-mail, then
      of its join time: nothing is quoted. */
  lemma RowColumns(s: Subscriber)
    ensures Split(Row(s), ',') == Split(s.id, ',') + Split(s.email, ',') + Split(s.createdAt, ',')
  {
    JoinThree(s.id, s.email, s.createdAt, ",");
    var t := s.email + "," + s.createdAt;
    assert Row(s) == s.id + "," + t;
    SplitConcat(s.id, t, ',');
    SplitConcat(s.email, s.createdAt, ',');
  }

  /** A separator-containing text splits into at least two pieces. */
  lemma SplitAtSeparator(s: string, sep: char)
    requires sep in s
    ensures |Split(s, sep)| >= 2
  {
    JoinSplit(s, sep);
  }

  /** Comma-free fields give a line exactly the three columns of the header. */
  lemma PlainRowColumns(s: Subscriber)
    requires ',' !in s.id && ',' !in s.email && ',' !in s.createdAt
    ensures Split(Row(s), ',') == [s.id, s.email, s.createdAt]
  {
    RowColumns(s);
    SplitNoSep(s.id, ',');
    SplitNoSep(s.email, ',');
    SplitNoSep(s.createdAt, ',');
  }

  /** The header line is "ID,Email,Joined At". */
  lemma HeaderText()
    ensures Header() == "ID,Email,Joined At"
  {
    JoinThree("ID", "Email", "Joined At", ",");
  }

  /** Cut at commas, the header line gives back its three titles. */
  lemma HeaderColumns()
    ensures Split(Header(), ',') == Headers
  {
    assert forall i :: 0 <= i < |Headers| ==> ',' !in Headers[i];
    SplitJoin(Headers, ',');
  }

  /** An e-mail holding a comma gives its line more columns than the header. */
  lemma CommaShiftsColumns(s: Subscriber)
    requires ',' in s.email
    ensures |Split(Row(s), ',')| > |Split(Header(), ',')|
  {
    RowColumns(s);
    SplitAtSeparator(s.email, ',');
    HeaderColumns();
  }

  /** The export is the same whatever the search box holds: it is built from
      the whole loaded list, never from the filtered one. */
  lemma ExportIgnoresSearch(subs: seq<Subscriber>, a: string, b: string)
    ensures Export(View(subs, a)) == Export(View(subs, b))
    ensures Export(View(subs, a)) == CsvContent(subs)
  {
  }

  /** An empty search keeps every subscriber, in order. */
  lemma EmptySearchKeepsAll(subs: seq<Subscriber>)
    ensures Filtered(View(subs, "")) == subs
  {
    forall i | 0 <= i < |subs| ensures Matches(subs[i], "") {
      ContainsEmpty(ToLower(subs[i].email));
    }
    FilterKeepsAll(subs, (s: Subscriber) => Contains(ToLower(s.email), ToLower("")));
  }

  /** Search is case-insensitive: the term's letter case does not matter. */
  lemma SearchIgnoresCase(v: View, other: string)
    requires ToLower(other) == ToLower(v.search)
    ensures Filtered(View(v.subscribers, other)) == Filtered(v)
  {
  }
}
