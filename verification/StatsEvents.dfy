/** Statistics and the events that change them (src/stats.c), on values, and what somebody hears who follows the events. */
module StatsEvents {
  import opened Octets

  datatype Action = Set | Inc | Dec | Add | Sub | Remove

  /** No source means a global statistic; no name means all statistics of a source. */
  datatype Event = Event(source: Option<string>, name: Option<string>, value: Option<string>, action: Action)

  /** Events as the stats_event functions build them. */
  predicate Built(e: Event) {
    && (e.value.None? <==> e.action.Inc? || e.action.Dec? || e.action.Remove?)
    && (e.source.None? || !e.action.Remove? ==> e.name.Some?)
  }

  datatype Board = Board(globals: map<string, string>, sources: map<string, map<string, string>>)

  datatype Key = Key(source: Option<string>, name: string)

  function Lookup(b: Board, k: Key): (value: Option<string>) {
    if k.source.None? then Get(b.globals, k.name)
    else if k.source.value in b.sources then Get(b.sources[k.source.value], k.name) else None
  }

  function Get(tree: map<string, string>, name: string): (value: Option<string>) {
    if name in tree then Some(tree[name]) else None
  }

  // ---------- numbers in statistics ----------

  predicate IsDigit(c: char) {
    '0' <= c <= '9'
  }

  /** The number a run of digits at the start of `s` stands for. */
  function Digits(s: string, n: int): (value: int)
    decreases |s|
  {
    if s == [] || !IsDigit(s[0]) then n else Digits(s[1..], 10 * n + (s[0] as int - '0' as int))
  }

  /** atoi and atoll: white space, a sign, digits. */
  function ParseInt(s: string): (value: int) {
    if s == [] then 0
    else if s[0] in " \t\n\r" || s[0] == 11 as char || s[0] == 12 as char then ParseInt(s[1..])
    else if s[0] == '-' then -Digits(s[1..], 0)
    else if s[0] == '+' then Digits(s[1..], 0)
    else Digits(s, 0)
  }

  function ShowNat(n: nat): (s: string) {
    if n < 10 then [n as char + '0'] else ShowNat(n / 10) + [(n % 10) as char + '0']
  }

  function Text(n: int): (s: string) {
    if n < 0 then "-" + ShowNat(-n) else ShowNat(n)
  }

  /** snprintf into 16 bytes. */
  function Show(n: int): (s: string) {
    if |Text(n)| < 16 then Text(n) else Text(n)[..15]
  }

  /** Without its last digit. */
  function Shorter(n: int): (m: int) {
    if n < 0 then -(-n / 10) else n / 10
  }

  /** The number that is left when a text of 16 or more characters is cut. */
  function Cut(n: int): (m: int)
    decreases if n < 0 then -n else n
  {
    if |Text(n)| < 16 then n else LongText(n); Cut(Shorter(n))
  }

  lemma LongText(n: int)
    requires |Text(n)| >= 16
    ensures n >= 10 || n <= -10
  {
  }

  predicate AllDigits(s: string) {
    forall i :: 0 <= i < |s| ==> IsDigit(s[i])
  }

  lemma {:induction false} DigitsMore(s: string, c: char, n: int)
    requires AllDigits(s) && IsDigit(c)
    ensures Digits(s + [c], n) == 10 * Digits(s, n) + (c as int - '0' as int)
    decreases |s|
  {
    if s == [] {
      assert ([] + [c])[1..] == [];
    } else {
      assert (s + [c])[1..] == s[1..] + [c];
      DigitsMore(s[1..], c, 10 * n + (s[0] as int - '0' as int));
    }
  }

  lemma {:induction false} ParseNat(n: nat)
    ensures AllDigits(ShowNat(n)) && ShowNat(n) != [] && Digits(ShowNat(n), 0) == n
  {
    if n < 10 {
      assert ShowNat(n)[1..] == [];
    } else {
      ParseNat(n / 10);
      DigitsMore(ShowNat(n / 10), (n % 10) as char + '0', 0);
    }
  }

  /** Reading undoes printing. */
  lemma ParseText(n: int)
    ensures ParseInt(Text(n)) == n
  {
    var digits := ShowNat(if n < 0 then -n else n);
    ParseNat(if n < 0 then -n else n);
    assert IsDigit(digits[0]);
    assert ("-" + digits)[1..] == digits;
  }

  lemma TextShorter(n: int)
    requires n >= 10 || n <= -10
    ensures |Text(n)| > 1 && Text(n)[..|Text(n)| - 1] == Text(Shorter(n))
  {
    var m := if n < 0 then -n else n;
    var front, last := ShowNat(m / 10), (m % 10) as char + '0';
    ParseNat(m / 10);
    assert ShowNat(m) == front + [last];
    if n < 0 {
      assert Text(n) == "-" + front + [last];
    }
  }

  lemma {:induction false} ShowCut(n: int)
    ensures Show(n) == Text(Cut(n)) && |Text(Cut(n))| < 16
    decreases if n < 0 then -n else n
  {
    hide Text;
    if |Text(n)| >= 16 {
      LongText(n);
      TextShorter(n);
      var s := Text(n);
      assert s[..|s| - 1][..15] == s[..15];
      assert |s| == 16 ==> s[..|s| - 1] == s[..15];
      ShowCut(Shorter(n));
    }
  }

  /** A text as the server would print its number. */
  predicate Canonical(v: string) {
    v == Show(ParseInt(v))
  }

  /** A text is what is printed for `n` exactly when it is a printed number and that number is `n`, cut as printing cuts it. */
  lemma Printed(n: int, v: string)
    ensures Show(n) == v <==> Canonical(v) && Cut(n) == ParseInt(v)
  {
    hide Text, ParseInt, Cut;
    ShowCut(n);
    ParseText(Cut(n));
  }

  /** The new text of a statistic that is there already. */
  function Changed(was: string, e: Event): (value: string)
    requires Built(e) && !e.action.Remove?
  {
    match e.action
    case Set => e.value.value
    case Inc => Show(ParseInt(was) + 1)
    case Dec => Show(ParseInt(was) - 1)
    case Add => Show(ParseInt(was) + ParseInt(e.value.value))
    case _ => Show(ParseInt(was) - ParseInt(e.value.value))
  }

  /** The value an event carries once it has been processed: only INC and DEC get the new one. */
  function Carried(was: Option<string>, e: Event): (value: Option<string>)
    requires Built(e)
  {
    if was.Some? && e.value.None? && !e.action.Remove? then Some(Changed(was.value, e)) else e.value
  }

  /** The new value of the statistic `e` names, if it names one. */
  function Result(was: Option<string>, e: Event): (value: Option<string>)
    requires Built(e)
  {
    if e.action.Remove? || was.None? then e.value else Some(Changed(was.value, e))
  }

  // ---------- following the events ----------

  /** What is sent about an event; a missing value means that the statistic, or the whole source, is gone. */
  datatype Note = Note(source: Option<string>, name: Option<string>, value: Option<string>)

  type Replica = map<Key, string>

  function Hear(r: Replica, n: Note): (r': Replica) {
    if n.name.Some? then
      if n.value.Some? then r[Key(n.source, n.name.value) := n.value.value] else r - {Key(n.source, n.name.value)}
    else if n.value.None? then map k | k in r && k.source != n.source :: r[k]
    else r
  }

  function Replay(notes: seq<Note>): (r: Replica) {
    if notes == [] then map[] else Hear(Replay(notes[..|notes| - 1]), notes[|notes| - 1])
  }

  lemma ReplayNext(notes: seq<Note>, n: Note)
    ensures Replay(notes + [n]) == Hear(Replay(notes), n)
  {
    assert (notes + [n])[..|notes|] == notes;
  }

  function Find(r: Replica, k: Key): (value: Option<string>) {
    if k in r then Some(r[k]) else None
  }

  /** The follower knows exactly the statistics there are, with their values. */
  ghost predicate Mirrors(r: Replica, b: Board) {
    forall k :: Find(r, k) == Lookup(b, k)
  }

  /** `e` is about `k`, by name or with its whole source. */
  predicate Concerns(source: Option<string>, name: Option<string>, k: Key) {
    source == k.source && (name.None? || name.value == k.name)
  }

  lemma HearAt(r: Replica, n: Note, k: Key)
    requires n.name.None? ==> n.value.None?
    ensures Find(Hear(r, n), k) == if Concerns(n.source, n.name, k) then n.value else Find(r, k)
  {
  }

  /** The statistics after an event: each one it concerns has its new value, all others the old one. */
  ghost predicate Applied(b: Board, e: Event, b': Board)
    requires Built(e)
  {
    forall k :: Lookup(b', k) == if Concerns(e.source, e.name, k) then Result(Lookup(b, k), e) else Lookup(b, k)
  }

  /** The statistic an event names, before it. */
  function Named(b: Board, e: Event): (value: Option<string>) {
    if e.name.Some? then Lookup(b, Key(e.source, e.name.value)) else None
  }

  /** The number in a statistic has gone up by `delta`: exactly, or cut to what 15 characters hold. */
  predicate WentUpBy(was: string, delta: int, now: string) {
    && (|Text(ParseInt(was) + delta)| < 16 ==> ParseInt(now) == ParseInt(was) + delta)
    && ParseInt(now) == Cut(ParseInt(was) + delta)
  }

  /** What an event makes of the statistic it names, in numbers where it counts and in its own words where it does not. */
  predicate Counted(was: Option<string>, e: Event, now: Option<string>)
    requires Built(e)
  {
    if e.action.Remove? then now.None?
    else if e.action.Set? || was.None? then now == e.value
    else if e.action.Inc? then now.Some? && WentUpBy(was.value, 1, now.value)
    else if e.action.Dec? then now.Some? && WentUpBy(was.value, -1, now.value)
    else if e.action.Add? then now.Some? && WentUpBy(was.value, ParseInt(e.value.value), now.value)
    else now.Some? && WentUpBy(was.value, -ParseInt(e.value.value), now.value)
  }

  lemma ShownNumber(n: int)
    ensures ParseInt(Show(n)) == Cut(n) && (|Text(n)| < 16 ==> Cut(n) == n)
  {
    ShowCut(n);
    ParseText(Cut(n));
  }

  /** An event counts as its name says. */
  lemma EventCounts(b: Board, e: Event, b': Board)
    requires Built(e) && e.name.Some? && Applied(b, e, b')
    ensures Counted(Named(b, e), e, Named(b', e))
  {
    hide ParseInt, Show, Text, Cut, Lookup;
    var k := Key(e.source, e.name.value);
    assert Concerns(e.source, e.name, k) && Lookup(b', k) == Result(Lookup(b, k), e);
    if Named(b, e).Some? && !e.action.Remove? && !e.action.Set? {
      var was := ParseInt(Named(b, e).value);
      if e.action.Inc? {
        ShownNumber(was + 1);
      } else if e.action.Dec? {
        ShownNumber(was - 1);
      } else if e.action.Add? {
        ShownNumber(was + ParseInt(e.value.value));
      } else {
        ShownNumber(was - ParseInt(e.value.value));
      }
    }
  }

  /** What the listeners' copies of an event say. */
  function Copy(b: Board, e: Event): (n: Note)
    requires Built(e)
  {
    Note(e.source, e.name, Carried(Named(b, e), e))
  }

  /**
   An event that adds to or subtracts from a statistic tells its listeners the amount. That is the total only by accident:
   when the statistic was 0, or twice the amount that is subtracted (`ExactShort`), or when cutting a long total makes it so.
   */
  predicate Exact(b: Board, e: Event)
    requires Built(e)
  {
    (e.action.Add? || e.action.Sub?) && Named(b, e).Some? ==>
      var was, amount := ParseInt(Named(b, e).value), ParseInt(e.value.value);
      Canonical(e.value.value) && Cut(if e.action.Add? then was + amount else was - amount) == amount
  }

  lemma ExactShort(b: Board, e: Event)
    requires Built(e) && (e.action.Add? || e.action.Sub?) && Named(b, e).Some?
    requires var was, amount := ParseInt(Named(b, e).value), ParseInt(e.value.value);
             |Text(if e.action.Add? then was + amount else was - amount)| < 16
    ensures var was, amount := ParseInt(Named(b, e).value), ParseInt(e.value.value);
            Exact(b, e) <==> Canonical(e.value.value) && was == if e.action.Add? then 0 else 2 * amount
  {
  }

  /** The new text of the statistic is the text of the amount exactly then. */
  lemma ToldRight(b: Board, e: Event)
    requires Built(e) && (e.action.Add? || e.action.Sub?) && Named(b, e).Some?
    ensures Exact(b, e) <==> Changed(Named(b, e).value, e) == e.value.value
  {
    hide Show, ParseInt, Canonical, Cut;
    var was, amount := ParseInt(Named(b, e).value), ParseInt(e.value.value);
    Printed(if e.action.Add? then was + amount else was - amount, e.value.value);
  }

  /** Whoever had the right picture before an event has it afterwards exactly when the event is exact. */
  lemma FollowerKeepsUp(r: Replica, b: Board, e: Event, b': Board)
    requires Built(e) && Mirrors(r, b) && Applied(b, e, b')
    ensures Mirrors(Hear(r, Copy(b, e)), b') <==> Exact(b, e)
  {
    hide Lookup, Hear, Find, ParseInt, Show, Exact;
    var n := Copy(b, e);
    if (e.action.Add? || e.action.Sub?) && Named(b, e).Some? {
      ToldRight(b, e);
    } else {
      OtherwiseExact(b, e);
    }
    forall k ensures Find(Hear(r, n), k) == if Concerns(e.source, e.name, k) then n.value else Lookup(b, k) {
      HearAt(r, n, k);
      assert Find(r, k) == Lookup(b, k);
    }
    if e.name.Some? {
      var k := Key(e.source, e.name.value);
      assert Concerns(e.source, e.name, k);
      assert Find(Hear(r, n), k) == n.value && Lookup(b', k) == Result(Lookup(b, k), e);
    }
  }

  lemma OtherwiseExact(b: Board, e: Event)
    requires Built(e) && !((e.action.Add? || e.action.Sub?) && Named(b, e).Some?)
    ensures Exact(b, e)
  {
  }

  /** Adding 3 to 5: the follower is told 3. */
  lemma FollowerMisled()
    ensures var b := Board(map["bytes" := "5"], map[]);
            var e := Event(None, Some("bytes"), Some("3"), Add);
            !Exact(b, e) && Changed("5", e) == "8" && Copy(b, e) == Note(None, Some("bytes"), Some("3"))
  {
    var b := Board(map["bytes" := "5"], map[]);
    var e := Event(None, Some("bytes"), Some("3"), Add);
    assert "5"[1..] == [] && "3"[1..] == [];
    assert Digits("5", 0) == Digits([], 5) == 5;
    assert Digits("3", 0) == Digits([], 3) == 3;
    assert ParseInt("5") == 5 && ParseInt("3") == 3;
    assert ShowNat(8) == "8" && Text(8) == "8";
    assert Changed("5", e) == "8";
    ToldRight(b, e);
  }

  // ---------- statistics that are counted ----------

  /** The C code copies a missing string: INC or DEC of a global statistic that is not there. */
  predicate Crashes(b: Board, e: Event) {
    e.source.None? && e.name.Some? && (e.action.Inc? || e.action.Dec?) && e.name.value !in b.globals
  }

  /** What the server sets to 0 when it starts. */
  const STARTUP: seq<string> := [
    "clients", "connections", "sources", "stats", "listeners", "client_connections", "source_client_connections",
    "source_relay_connections", "source_total_connections", "stats_connections", "listener_connections", "file_connections"]

  /** Every global statistic that the server counts up or down is there. */
  predicate Started(b: Board) {
    forall i :: 0 <= i < |STARTUP| ==> STARTUP[i] in b.globals
  }

  /** Events as the server produces them: only these global statistics are counted, and they are never removed. */
  predicate Ordinary(e: Event) {
    e.source.None? && e.name.Some? ==>
      && (e.action.Inc? || e.action.Dec? ==> e.name.value in STARTUP)
      && (e.action.Remove? ==> e.name.value !in STARTUP)
  }

  /** Once the server has started, none of its events crashes it. */
  lemma StartedStays(b: Board, e: Event, b': Board)
    requires Built(e) && Started(b) && Ordinary(e)
    ensures !Crashes(b, e) && (Applied(b, e, b') ==> Started(b'))
  {
    if Applied(b, e, b') {
      forall i | 0 <= i < |STARTUP| ensures STARTUP[i] in b'.globals {
        var k := Key(None, STARTUP[i]);
        assert Lookup(b, k).Some?;
        assert Lookup(b', k) == if Concerns(e.source, e.name, k) then Result(Lookup(b, k), e) else Lookup(b, k);
      }
    }
  }

  /** Counting a listener before the statistics have been set up does. */
  lemma CrashBeforeStart()
    ensures var b, e := Board(map[], map[]), Event(None, Some("listeners"), None, Inc);
            Built(e) && Ordinary(e) && Crashes(b, e)
  {
    assert STARTUP[4] == "listeners";
  }
}
