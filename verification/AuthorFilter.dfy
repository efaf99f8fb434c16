/** The author filter as SQL evaluates it on a stored row, against what the program says about the row once loaded. */
module AuthorFilter {
  import opened Basics
  import opened Text
  import opened CmdOrigins
  import opened HistoryFormat

  const KNOWN_AGENTS: seq<string> := ["claude-code", "codex", "copilot", "opencode", "pi"]
  const UNKNOWN: string := "unknown-user"

  predicate IsKnownAgent(author: string) { author in KNOWN_AGENTS }

  /** A value of the integer column of the kind: an integer, or text or a fraction that is none. */
  datatype Cell = Number(n: int) | NoInteger

  /** The columns that matter; author and kind may be NULL. */
  datatype Row = Row(hostname: string, author: Option<string>, kind: Option<Cell>)

  // --- the program's side: the row as loaded, and its classification -----------------------------------------

  datatype Entry = Entry(origin: CmdOrigin<char>, author: string, kind: Option<AuthorKind>)

  /** The whole hostname when it has no colon, the user otherwise. */
  function DefaultAuthor(hostname: string): string {
    match Find(hostname, ':')
    case Some(sep) => hostname[sep + 1..]
    case None => hostname
  }

  /** What is no byte is not stated. */
  function LoadKind(kind: Option<Cell>): Option<AuthorKind> {
    if kind.Some? && kind.value.Number? && 0 <= kind.value.n < 256 then FromRepr(kind.value.n) else None
  }

  predicate Blank(s: string) { Trim(s) == [] }

  function FromRow(row: Row): Entry {
    Entry(ParseLenient(row.hostname, ':', UNKNOWN),
          if row.author.Some? && !Blank(row.author.value) then row.author.value else DefaultAuthor(row.hostname),
          LoadKind(row.kind))
  }

  predicate IsAgent(e: Entry)
    requires Valid(e.origin, ':')
  {
    match e.kind
    case Some(kind) => kind == Agent
    case None =>
      var user := e.origin.User();
      var defaulted := if user == UNKNOWN then e.origin.Host() else user;
      IsKnownAgent(e.author) && e.author != defaulted
  }

  // --- SQL's side: three-valued logic ------------------------------------------------------------------------

  datatype Truth = True | False | Unknown

  function Of(b: bool): Truth { if b then True else False }
  function Not(a: Truth): Truth { match a case True => False case False => True case Unknown => Unknown }
  function And(a: Truth, b: Truth): Truth {
    if a == False || b == False then False else if a == True && b == True then True else Unknown
  }
  function Or(a: Truth, b: Truth): Truth { Not(And(Not(a), Not(b))) }

  /** Comparing with NULL is neither true nor false. */
  function Equals<T(==)>(a: Option<T>, b: T): Truth { if a.None? then Unknown else Of(a.value == b) }
  function In<T(==)>(a: Option<T>, list: seq<T>): Truth {
    if list == [] then False else Or(Equals(a, list[0]), In(a, list[1..]))
  }
  function IsNull<T>(a: Option<T>): Truth { Of(a.None?) }

  /** `instr` and the two forms of `substr`, counting from one. */
  function Instr(s: string, c: char): nat { var r := Find(s, c); if r.None? then 0 else r.value + 1 }
  function SubstrFrom(s: string, from: nat): string requires 1 <= from <= |s| + 1 { s[from - 1..] }
  function SubstrTo(s: string, length: nat): string requires length <= |s| { s[..length] }

  /** SQL's `trim` removes spaces only. */
  function SqlTrim(s: string): (r: string)
    ensures r == [] <==> forall i :: 0 <= i < |s| ==> s[i] == ' '
  {
    if s == [] then [] else if s[0] == ' ' then SqlTrim(s[1..]) else if s[|s| - 1] == ' ' then SqlTrim(s[..|s| - 1])
        else s
  }

  function SqlBlank(author: Option<string>): Truth {
    Or(IsNull(author), Equals(if author.None? then None else Some(SqlTrim(author.value)), []))
  }

  function UserExpr(hostname: string): string {
    if Instr(hostname, ':') > 0 then SubstrFrom(hostname, Instr(hostname, ':') + 1) else hostname
  }

  function AuthorExpr(row: Row): Option<string> {
    if SqlBlank(row.author) == True then Some(UserExpr(row.hostname)) else row.author
  }

  function DefaultedExpr(hostname: string): string {
    var at := Instr(hostname, ':');
    if at == 0 then hostname
    else if SubstrFrom(hostname, at + 1) == UNKNOWN then SubstrTo(hostname, at - 1)
    else SubstrFrom(hostname, at + 1)
  }

  function SqlIsAgent(row: Row): Truth {
    if In(row.kind, [Number(1), Number(2)]) == True then Equals(row.kind, Number(2))
    else if SqlBlank(row.author) == True then False
    else And(In(row.author, KNOWN_AGENTS), Not(Equals(row.author, DefaultedExpr(row.hostname))))
  }

  datatype Pattern = AllUser | AllAgent | Name(name: string)

  function Condition(p: Pattern, row: Row): Truth {
    match p
    case AllUser => Not(SqlIsAgent(row))
    case AllAgent => SqlIsAgent(row)
    case Name(name) => Equals(AuthorExpr(row), name)
  }

  function AnyOf(patterns: seq<Pattern>, row: Row): Truth {
    if patterns == [] then False else Or(Condition(patterns[0], row), AnyOf(patterns[1..], row))
  }

  // --- agreement -------------------------------------------------------------------------------------------------

  lemma {:induction false} InIsMembership<T>(x: T, list: seq<T>)
    ensures In(Some(x), list) == Of(x in list)
  {
    if list != [] {
      InIsMembership(x, list[1..]);
      assert x in list <==> x == list[0] || x in list[1..];
    }
  }

  lemma {:induction false} NullIsNeverIn<T>(list: seq<T>)
    ensures In(None, list) != True
  {
    if list != [] {
      NullIsNeverIn(list[1..]);
    }
  }

  lemma KindsAgree(kind: Option<Cell>)
    ensures In(kind, [Number(1), Number(2)]) == True <==> LoadKind(kind).Some?
    ensures LoadKind(kind).Some? ==> Equals(kind, Number(2)) == Of(LoadKind(kind).value == Agent)
  {
    if kind.Some? {
      InIsMembership(kind.value, [Number(1), Number(2)]);
    } else {
      NullIsNeverIn<Cell>([Number(1), Number(2)]);
    }
  }

  lemma SqlBlankMeans(author: Option<string>)
    ensures SqlBlank(author) == Of(author.None? || SqlTrim(author.value) == [])
  {
  }

  /** What SQL takes for blank is blank. */
  lemma SqlBlankIsBlank(s: string)
    requires SqlTrim(s) == []
    ensures Blank(s)
  {
    assert forall i :: 0 <= i < |s| ==> IsWhitespace(s[i]);
  }

  lemma KnownAgentIsNotBlank(s: string)
    requires IsKnownAgent(s)
    ensures !Blank(s) && s != UNKNOWN
  {
    assert !IsWhitespace(s[0]);
  }

  /** The name the author falls back to, as either side computes it. */
  lemma DefaultsAgree(hostname: string)
    ensures UserExpr(hostname) == DefaultAuthor(hostname)
    ensures var o := ParseLenient(hostname, ':', UNKNOWN);
            DefaultedExpr(hostname) == if o.User() == UNKNOWN then o.Host() else o.User()
    ensures DefaultAuthor(hostname) == UNKNOWN || DefaultAuthor(hostname) == DefaultedExpr(hostname)
  {
    var o := ParseLenient(hostname, ':', UNKNOWN);
    if Find(hostname, ':').None? {
      assert o.Host() == hostname && o.User() == UNKNOWN;
    }
  }

  /** A fallen-back author is never taken for an agent. */
  lemma FallbackIsNoAgent(hostname: string)
    ensures !IsAgent(Entry(ParseLenient(hostname, ':', UNKNOWN), DefaultAuthor(hostname), None))
  {
    DefaultsAgree(hostname);
    if IsKnownAgent(DefaultAuthor(hostname)) {
      KnownAgentIsNotBlank(DefaultAuthor(hostname));
    }
  }

  lemma BlankNamesAgree(row: Row)
    requires LoadKind(row.kind).None? && (row.author.None? || Blank(row.author.value))
    ensures SqlIsAgent(row) == False && !IsAgent(FromRow(row))
  {
    KindsAgree(row.kind);
    SqlBlankMeans(row.author);
    FallbackIsNoAgent(row.hostname);
    if row.author.Some? {
      InIsMembership(row.author.value, KNOWN_AGENTS);
      if IsKnownAgent(row.author.value) {
        KnownAgentIsNotBlank(row.author.value);
        assert false;
      }
    }
  }

  lemma StatedNamesAgree(row: Row)
    requires LoadKind(row.kind).None? && row.author.Some? && !Blank(row.author.value)
    ensures SqlIsAgent(row) == Of(IsAgent(FromRow(row)))
  {
    KindsAgree(row.kind);
    SqlBlankMeans(row.author);
    DefaultsAgree(row.hostname);
    InIsMembership(row.author.value, KNOWN_AGENTS);
    if SqlTrim(row.author.value) == [] {
      SqlBlankIsBlank(row.author.value);
      assert false;
    }
  }

  /** On every row the SQL classification is definite and is what the loaded entry says. */
  lemma ClassifiersAgree(row: Row)
    ensures SqlIsAgent(row) == Of(IsAgent(FromRow(row)))
  {
    KindsAgree(row.kind);
    if LoadKind(row.kind).None? {
      if row.author.None? || Blank(row.author.value) {
        BlankNamesAgree(row);
      } else {
        StatedNamesAgree(row);
      }
    }
  }

  /** Whom a row names as an agent: by its kind, or without one by an author of the five known names who is not the
      user of the shell. */
  lemma WhoIsAgent(host: string, user: string, author: string)
    requires ':' !in host && user != "unknown-user" && !Blank(author)
    ensures IsAgent(FromRow(Row(host + ":" + user, Some(author), Some(Number(2)))))
    ensures !IsAgent(FromRow(Row(host + ":" + user, Some(author), Some(Number(1)))))
    ensures IsAgent(FromRow(Row(host + ":" + user, Some(author), None))) <==>
            author != user && (author == "claude-code" || author == "codex" || author == "copilot"
                               || author == "opencode" || author == "pi")
  {
    UserBehindColon(host, user);
  }

  lemma UserBehindColon(host: string, user: string)
    requires ':' !in host
    ensures ParseLenient(host + ":" + user, ':', UNKNOWN).User() == user
  {
    var hostname := host + ":" + user;
    assert forall i :: 0 <= i < |host| ==> hostname[i] == host[i];
    FindFirst(hostname, ':', |host|);
    assert hostname[|host| + 1..] == user;
  }

  /** So the two patterns divide all rows between them. */
  lemma UsersAndAgentsPartition(row: Row)
    ensures Condition(AllUser, row) == True <==> Condition(AllAgent, row) != True
    ensures Condition(AllAgent, row) == True <==> IsAgent(FromRow(row))
    ensures AnyOf([AllUser, AllAgent], row) == True
  {
    ClassifiersAgree(row);
    assert [AllUser, AllAgent][1..] == [AllAgent];
    assert AnyOf([AllAgent], row) == Or(SqlIsAgent(row), AnyOf([AllAgent][1..], row));
  }

  /** The rows on which the two notions of blank part: an author of white space that is not all spaces. */
  predicate OddlyBlank(row: Row) {
    && row.author.Some? && Blank(row.author.value) && SqlTrim(row.author.value) != []
    && row.author.value != DefaultAuthor(row.hostname)
  }

  /** SQL matches names against the author as loaded, on exactly the rows that are not oddly blank. */
  lemma AuthorsAgreeIff(row: Row)
    ensures AuthorExpr(row) == Some(FromRow(row).author) <==> !OddlyBlank(row)
  {
    SqlBlankMeans(row.author);
    DefaultsAgree(row.hostname);
    if row.author.Some? && SqlTrim(row.author.value) == [] {
      SqlBlankIsBlank(row.author.value);
    }
  }

  lemma OddlyBlankExample()
    ensures OddlyBlank(Row("host:ada", Some("\t"), None))
    ensures Condition(Name("ada"), Row("host:ada", Some("\t"), None)) == False
    ensures FromRow(Row("host:ada", Some("\t"), None)).author == "ada"
  {
    var row := Row("host:ada", Some("\t"), None);
    FindFirst(row.hostname, ':', 4);
    assert DefaultAuthor(row.hostname) == "ada";
    assert "\t"[0] != ' ';
    assert SqlTrim("\t") != [];
    assert IsWhitespace("\t"[0]);
    assert Blank("\t");
    SqlBlankMeans(row.author);
  }

  /** The simple form of the filter: one of its patterns admits the loaded entry. */
  predicate Admits(patterns: seq<Pattern>, e: Entry)
    requires Valid(e.origin, ':')
  {
    || Name(e.author) in patterns
    || (AllUser in patterns && !IsAgent(e))
    || (AllAgent in patterns && IsAgent(e))
  }

  predicate AdmittedBy(p: Pattern, e: Entry)
    requires Valid(e.origin, ':')
  {
    match p
    case AllUser => !IsAgent(e)
    case AllAgent => IsAgent(e)
    case Name(name) => e.author == name
  }

  lemma ConditionAgrees(p: Pattern, row: Row)
    requires !OddlyBlank(row)
    ensures Condition(p, row) == Of(AdmittedBy(p, FromRow(row)))
  {
    ClassifiersAgree(row);
    AuthorsAgreeIff(row);
  }

  lemma AdmitsCons(p: Pattern, rest: seq<Pattern>, e: Entry)
    requires Valid(e.origin, ':')
    ensures Admits([p] + rest, e) <==> AdmittedBy(p, e) || Admits(rest, e)
  {
  }

  /** The disjunction SQL evaluates admits exactly the rows whose loaded entry the filter admits, and is never
      unknown. */
  lemma {:induction false} FilterAgrees(patterns: seq<Pattern>, row: Row)
    requires !OddlyBlank(row)
    ensures AnyOf(patterns, row) == Of(Admits(patterns, FromRow(row)))
  {
    if patterns != [] {
      FilterAgrees(patterns[1..], row);
      ConditionAgrees(patterns[0], row);
      AdmitsCons(patterns[0], patterns[1..], FromRow(row));
      assert patterns == [patterns[0]] + patterns[1..];
    }
  }
}
