/** Netem settings, their rendering as `tc` arguments and the reading back of those arguments
    (pkg/chaosdaemon/tc_server.go). */
module Netem {
  import opened Text

  const MICROSECOND: nat := 1_000
  const MILLISECOND: nat := 1_000_000
  const SECOND: nat := 1_000_000_000

  /** A duration field of the request, after Go has parsed it: unset, a number of nanoseconds, or unreadable. */
  datatype DurationField = Unset | Nanos(n: int) | Malformed

  datatype Netem = Netem(time: DurationField, jitter: DurationField, delayCorr: real,
                         reorder: real, reorderCorr: real, gap: nat, limit: nat,
                         loss: real, lossCorr: real, duplicate: real, duplicateCorr: real,
                         corrupt: real, corruptCorr: real, rate: string)

  function OptionalDuration(f: DurationField): Option<nat> {
    match f
    case Unset => Some(0)
    case Nanos(n) => if n < 0 then None else Some(n)
    case Malformed => None
  }

  // ---------- durations ----------

  function FormatTcDuration(d: nat): (text: string)
    ensures text != ""
  {
    if d % SECOND == 0 then Decimal(d / SECOND) + "s"
    else if d % MILLISECOND == 0 then Decimal(d / MILLISECOND) + "ms"
    else Decimal(d / MICROSECOND + if d % MICROSECOND != 0 then 1 else 0) + "us"
  }

  /** The number of microseconds `tc` reads from a number followed by one of its three units. */
  function ReadTcDuration(text: string): Option<nat> {
    var n := |text|;
    if n > 2 && text[n - 2..] == "us" && AllDigits(text[..n - 2]) then Some(Value(text[..n - 2]))
    else if n > 2 && text[n - 2..] == "ms" && AllDigits(text[..n - 2]) then Some(Value(text[..n - 2]) * 1_000)
    else if n > 1 && text[n - 1..] == "s" && AllDigits(text[..n - 1]) then Some(Value(text[..n - 1]) * 1_000_000)
    else None
  }

  /** The least number of whole microseconds that is not shorter than the duration. */
  predicate RoundsUp(d: nat, us: nat) {
    us * 1_000 >= d && (us > 0 ==> (us - 1) * 1_000 < d)
  }

  function Micros(d: nat): (us: nat)
    ensures RoundsUp(d, us)
    ensures us == 0 <==> d == 0
  {
    (d + MICROSECOND - 1) / MICROSECOND
  }

  lemma ReadUnits(digits: nat)
    ensures ReadTcDuration(Decimal(digits) + "us") == Some(digits)
    ensures ReadTcDuration(Decimal(digits) + "ms") == Some(digits * 1_000)
    ensures ReadTcDuration(Decimal(digits) + "s") == Some(digits * 1_000_000)
  {
    var s := Decimal(digits);
    ValueOfDecimal(digits);
    assert (s + "us")[|s|..] == "us" && (s + "us")[..|s|] == s;
    assert (s + "ms")[|s|..] == "ms" && (s + "ms")[..|s|] == s;
    assert (s + "s")[|s|..] == "s" && (s + "s")[..|s|] == s;
    assert (s + "s")[|s| - 1] == s[|s| - 1];
  }

  /** `tc` reads back the duration rounded up to a whole microsecond: exact on microseconds, and never zero
      for a duration that is not zero. */
  lemma DurationReadsBack(d: nat)
    ensures ReadTcDuration(FormatTcDuration(d)) == Some(Micros(d))
  {
    hide ReadTcDuration;
    if d % SECOND == 0 {
      ReadUnits(d / SECOND);
      assert d == d / SECOND * SECOND;
    } else if d % MILLISECOND == 0 {
      ReadUnits(d / MILLISECOND);
      assert d == d / MILLISECOND * MILLISECOND;
    } else {
      ReadUnits(d / MICROSECOND + if d % MICROSECOND != 0 then 1 else 0);
    }
  }

  lemma DurationIsMonotone(d: nat, e: nat)
    ensures d <= e ==> Micros(d) <= Micros(e)
    ensures FormatTcDuration(d) == FormatTcDuration(e) ==> Micros(d) == Micros(e)
  {
    DurationReadsBack(d);
    DurationReadsBack(e);
  }

  // ---------- arguments ----------

  datatype Token =
    | Keyword(name: string) | Time(text: string) | Percent(value: real) | Count(n: nat) | Text(text: string)

  /** The settings that take effect: a field counts only when the field that enables it is not zero.
      Durations are in microseconds. */
  datatype Settings = Settings(delay: nat, jitter: nat, delayCorr: real,
                               reorder: real, reorderCorr: real, gap: nat, limit: nat,
                               loss: real, lossCorr: real, duplicate: real, duplicateCorr: real,
                               corrupt: real, corruptCorr: real, rate: string)

  function When(enabled: bool, x: real): real {
    if enabled && x > 0.0 then x else 0.0
  }

  function Effective(n: Netem, delay: nat, jitter: nat): Settings {
    var reorder := When(delay > 0, n.reorder);
    Settings(
      Micros(delay), if delay > 0 then Micros(jitter) else 0, When(delay > 0 && jitter > 0, n.delayCorr),
      reorder, When(reorder > 0.0, n.reorderCorr), if reorder > 0.0 then n.gap else 0,
      n.limit,
      When(true, n.loss), When(n.loss > 0.0, n.lossCorr),
      When(true, n.duplicate), When(n.duplicate > 0.0, n.duplicateCorr),
      When(true, n.corrupt), When(n.corrupt > 0.0, n.corruptCorr),
      n.rate)
  }

  predicate Readable(n: Netem) {
    OptionalDuration(n.time).Some? && OptionalDuration(n.jitter).Some?
  }

  function SettingsOf(n: Netem): Settings
    requires Readable(n)
  {
    Effective(n, OptionalDuration(n.time).value, OptionalDuration(n.jitter).value)
  }

  /** A field may be left out, and must not be unreadable or negative. */
  predicate Acceptable(f: DurationField) {
    f.Unset? || (f.Nanos? && f.n >= 0)
  }

  /** The microseconds that stand for a field: none for one left out, otherwise its nanoseconds rounded up. */
  predicate StandsFor(f: DurationField, us: nat) {
    if f.Unset? then us == 0 else f.Nanos? && f.n >= 0 && RoundsUp(f.n, us)
  }

  predicate IsZero(f: DurationField) {
    f.Unset? || f == Nanos(0)
  }

  /** What takes effect, field by field, in terms of the request: the jitter and the correlation of the delay only
      beside a delay, and the latter only beside a jitter; reordering only beside a delay, its correlation and gap
      only beside it; every other correlation only beside its own percentage. */
  lemma SettingsInEffect(n: Netem)
    requires Acceptable(n.time) && Acceptable(n.jitter)
    ensures Readable(n)
    ensures var s := SettingsOf(n);
            && StandsFor(n.time, s.delay)
            && (if IsZero(n.time) then s.jitter == 0 else StandsFor(n.jitter, s.jitter))
            && (!IsZero(n.time) && !IsZero(n.jitter) && n.delayCorr > 0.0 ==> s.delayCorr == n.delayCorr)
            && (IsZero(n.time) || IsZero(n.jitter) || n.delayCorr <= 0.0 ==> s.delayCorr == 0.0)
            && (!IsZero(n.time) && n.reorder > 0.0 ==> s.reorder == n.reorder && s.gap == n.gap)
            && (IsZero(n.time) || n.reorder <= 0.0 ==> s.reorder == 0.0 && s.reorderCorr == 0.0 && s.gap == 0)
            && (s.reorder > 0.0 ==> s.reorderCorr == if n.reorderCorr > 0.0 then n.reorderCorr else 0.0)
            && s.limit == n.limit && s.rate == n.rate
    ensures var s := SettingsOf(n);
            && (n.loss > 0.0 ==> s.loss == n.loss && s.lossCorr == if n.lossCorr > 0.0 then n.lossCorr else 0.0)
            && (n.loss <= 0.0 ==> s.loss == 0.0 && s.lossCorr == 0.0)
            && (n.duplicate > 0.0 ==>
                  s.duplicate == n.duplicate
                  && s.duplicateCorr == if n.duplicateCorr > 0.0 then n.duplicateCorr else 0.0)
            && (n.duplicate <= 0.0 ==> s.duplicate == 0.0 && s.duplicateCorr == 0.0)
            && (n.corrupt > 0.0 ==>
                  s.corrupt == n.corrupt && s.corruptCorr == if n.corruptCorr > 0.0 then n.corruptCorr else 0.0)
            && (n.corrupt <= 0.0 ==> s.corrupt == 0.0 && s.corruptCorr == 0.0)
  {
  }

  // ---------- reading arguments back ----------

  /** What is left to read after one clause, with the values the clause held. */
  datatype Clause = Clause(first: real, second: real, rest: seq<Token>)

  /** `keyword percent [percent]`, or zeros when the keyword is not next. */
  function ReadClause(keyword: string, ts: seq<Token>): Clause {
    if |ts| >= 2 && ts[0] == Keyword(keyword) && ts[1].Percent? then
      if |ts| >= 3 && ts[2].Percent? then Clause(ts[1].value, ts[2].value, ts[3..])
      else Clause(ts[1].value, 0.0, ts[2..])
    else Clause(0.0, 0.0, ts)
  }

  /** `keyword count`, or zero. */
  function ReadCount(keyword: string, ts: seq<Token>): (nat, seq<Token>) {
    if |ts| >= 2 && ts[0] == Keyword(keyword) && ts[1].Count? then (ts[1].n, ts[2..]) else (0, ts)
  }

  function ReadTime(ts: seq<Token>): (nat, seq<Token>) {
    if ts != [] && ts[0].Time? && ReadTcDuration(ts[0].text).Some?
    then (ReadTcDuration(ts[0].text).value, ts[1..]) else (0, ts)
  }

  function ReadPercent(ts: seq<Token>): (real, seq<Token>) {
    if ts != [] && ts[0].Percent? then (ts[0].value, ts[1..]) else (0.0, ts)
  }

  function ReadKeyword(keyword: string, ts: seq<Token>): seq<Token> {
    if ts != [] && ts[0] == Keyword(keyword) then ts[1..] else ts
  }

  function ReadRate(ts: seq<Token>): (string, seq<Token>) {
    if |ts| >= 2 && ts[0] == Keyword("rate") && ts[1].Text? then (ts[1].text, ts[2..]) else ("", ts)
  }

  /** Reads an argument list as `tc` does: each clause at most once, in the order they are written. */
  function Decode(ts: seq<Token>): Option<Settings> {
    var (delay, t1) := ReadTime(ReadKeyword("delay", ts));
    var (jitter, t2) := ReadTime(t1);
    var (delayCorr, t3) := ReadPercent(t2);
    var reorder := ReadClause("reorder", t3);
    var (gap, t4) := ReadCount("gap", reorder.rest);
    var (limit, t5) := ReadCount("limit", t4);
    var loss := ReadClause("loss", t5);
    var duplicate := ReadClause("duplicate", loss.rest);
    var corrupt := ReadClause("corrupt", duplicate.rest);
    var (rate, t6) := ReadRate(corrupt.rest);
    if t6 != [] then None else
      Some(Settings(delay, jitter, delayCorr, reorder.first, reorder.second, gap, limit,
                    loss.first, loss.second, duplicate.first, duplicate.second,
                    corrupt.first, corrupt.second, rate))
  }

  // ---------- writing arguments ----------

  function WriteClause(keyword: string, value: real, corr: real): seq<Token> {
    if value > 0.0 then [Keyword(keyword), Percent(value)] + (if corr > 0.0 then [Percent(corr)] else []) else []
  }

  function WriteCount(keyword: string, n: nat): seq<Token> {
    if n > 0 then [Keyword(keyword), Count(n)] else []
  }

  function WriteRate(rate: string): seq<Token> {
    if rate != "" then [Keyword("rate"), Text(rate)] else []
  }

  function WriteDelay(delay: nat, jitter: nat, corr: real): seq<Token> {
    if delay == 0 then [] else
      [Keyword("delay"), Time(FormatTcDuration(delay))]
      + if jitter == 0 then [] else [Time(FormatTcDuration(jitter))] + if corr > 0.0 then [Percent(corr)] else []
  }

  predicate StartsAfter(ts: seq<Token>, keyword: string) {
    ts == [] || (ts[0].Keyword? && ts[0].name != keyword)
  }

  lemma ClauseReadsBack(keyword: string, value: real, corr: real, rest: seq<Token>)
    requires StartsAfter(rest, keyword)
    ensures ReadClause(keyword, WriteClause(keyword, value, corr) + rest)
         == Clause(When(true, value), When(value > 0.0, corr), rest)
  {
    var all := WriteClause(keyword, value, corr) + rest;
    if value > 0.0 {
      assert all[0] == Keyword(keyword) && all[1] == Percent(value);
      assert if corr > 0.0 then all[3..] == rest else all[2..] == rest;
    } else {
      assert all == rest;
    }
  }

  lemma CountReadsBack(keyword: string, n: nat, rest: seq<Token>)
    requires StartsAfter(rest, keyword)
    ensures ReadCount(keyword, WriteCount(keyword, n) + rest) == (n, rest)
  {
    var all := WriteCount(keyword, n) + rest;
    assert if n > 0 then all[2..] == rest else all == rest;
  }

  lemma RateReadsBack(rate: string)
    ensures ReadRate(WriteRate(rate)) == (rate, [])
  {
    assert WriteRate(rate) != [] ==> WriteRate(rate)[2..] == [];
  }

  lemma DelayReadsBack(delay: nat, jitter: nat, corr: real, rest: seq<Token>)
    requires StartsAfter(rest, "delay")
    ensures var (d, t1) := ReadTime(ReadKeyword("delay", WriteDelay(delay, jitter, corr) + rest));
            var (j, t2) := ReadTime(t1);
            var (c, t3) := ReadPercent(t2);
            d == Micros(delay) && j == (if delay > 0 then Micros(jitter) else 0)
            && c == When(delay > 0 && jitter > 0, corr) && t3 == rest
  {
    var all := WriteDelay(delay, jitter, corr) + rest;
    DurationReadsBack(delay);
    DurationReadsBack(jitter);
    hide FormatTcDuration, ReadTcDuration;
    if delay == 0 {
      assert all == rest;
    } else {
      assert all[0] == Keyword("delay") && all[1] == Time(FormatTcDuration(delay));
      var t0 := all[1..];
      assert t0[0] == all[1];
      var t1 := t0[1..];
      if jitter == 0 {
        assert t1 == rest;
      } else {
        assert t1[0] == Time(FormatTcDuration(jitter));
        assert if corr > 0.0 then t1[1] == Percent(corr) && t1[1..][1..] == rest else t1[1..] == rest;
      }
    }
  }

  /** The argument list, clause by clause. */
  function Encode(n: Netem, delay: nat, jitter: nat): seq<Token> {
    WriteDelay(delay, jitter, n.delayCorr)
    + (WriteReorder(n, delay)
    + (WriteCount("limit", n.limit)
    + (WriteClause("loss", n.loss, n.lossCorr)
    + (WriteClause("duplicate", n.duplicate, n.duplicateCorr)
    + (WriteClause("corrupt", n.corrupt, n.corruptCorr)
    + WriteRate(n.rate))))))
  }

  function WriteReorder(n: Netem, delay: nat): seq<Token> {
    if delay > 0 && n.reorder > 0.0
    then WriteClause("reorder", n.reorder, n.reorderCorr) + WriteCount("gap", n.gap) else []
  }

  lemma ReorderReadsBack(n: Netem, delay: nat, rest: seq<Token>)
    requires StartsAfter(rest, "reorder") && StartsAfter(rest, "gap")
    ensures var c := ReadClause("reorder", WriteReorder(n, delay) + rest);
            var reorder := When(delay > 0, n.reorder);
            c.first == reorder && c.second == When(reorder > 0.0, n.reorderCorr)
            && ReadCount("gap", c.rest) == (if reorder > 0.0 then n.gap else 0, rest)
  {
    if delay > 0 && n.reorder > 0.0 {
      var gap := WriteCount("gap", n.gap) + rest;
      assert WriteReorder(n, delay) + rest == WriteClause("reorder", n.reorder, n.reorderCorr) + gap;
      ClauseReadsBack("reorder", n.reorder, n.reorderCorr, gap);
      CountReadsBack("gap", n.gap, rest);
    } else {
      assert WriteReorder(n, delay) + rest == rest;
    }
  }

  predicate StartsAfterAll(ts: seq<Token>, keywords: set<string>) {
    ts == [] || (ts[0].Keyword? && ts[0].name !in keywords)
  }

  /** Reading the written arguments gives exactly the settings that take effect. */
  lemma EncodedReadsBack(n: Netem, delay: nat, jitter: nat)
    ensures Decode(Encode(n, delay, jitter)) == Some(Effective(n, delay, jitter))
  {
    var t6 := WriteRate(n.rate);
    var t5 := WriteClause("corrupt", n.corrupt, n.corruptCorr) + t6;
    var t4 := WriteClause("duplicate", n.duplicate, n.duplicateCorr) + t5;
    var t3 := WriteClause("loss", n.loss, n.lossCorr) + t4;
    var t2 := WriteCount("limit", n.limit) + t3;
    var t1 := WriteReorder(n, delay) + t2;
    assert StartsAfterAll(t6, {"delay", "reorder", "gap", "limit", "loss", "duplicate", "corrupt"});
    assert StartsAfterAll(t5, {"delay", "reorder", "gap", "limit", "loss", "duplicate"});
    assert StartsAfterAll(t4, {"delay", "reorder", "gap", "limit", "loss"});
    assert StartsAfterAll(t3, {"delay", "reorder", "gap", "limit"});
    assert StartsAfterAll(t2, {"delay", "reorder", "gap"});
    assert StartsAfterAll(t1, {"delay"});
    DelayReadsBack(delay, jitter, n.delayCorr, t1);
    ReorderReadsBack(n, delay, t2);
    CountReadsBack("limit", n.limit, t3);
    ClauseReadsBack("loss", n.loss, n.lossCorr, t4);
    ClauseReadsBack("duplicate", n.duplicate, n.duplicateCorr, t5);
    ClauseReadsBack("corrupt", n.corrupt, n.corruptCorr, t6);
    RateReadsBack(n.rate);
    assert Encode(n, delay, jitter) == WriteDelay(delay, jitter, n.delayCorr) + t1;
  }

  method AddClause(args: seq<Token>, keyword: string, value: real, corr: real) returns (r: seq<Token>)
    ensures r == args + WriteClause(keyword, value, corr)
  {
    r := args;
    if value > 0.0 {
      r := r + [Keyword(keyword), Percent(value)];
      if corr > 0.0 { r := r + [Percent(corr)]; }
    }
  }

  method AddCount(args: seq<Token>, keyword: string, n: nat) returns (r: seq<Token>)
    ensures r == args + WriteCount(keyword, n)
  {
    r := if n > 0 then args + [Keyword(keyword), Count(n)] else args;
  }

  method DelayArgs(n: Netem, delay: nat, jitter: nat) returns (args: seq<Token>)
    ensures args == WriteDelay(delay, jitter, n.delayCorr) + WriteReorder(n, delay)
  {
    args := [];
    if delay > 0 {
      args := [Keyword("delay"), Time(FormatTcDuration(delay))];
      if jitter > 0 {
        args := args + [Time(FormatTcDuration(jitter))];
        if n.delayCorr > 0.0 { args := args + [Percent(n.delayCorr)]; }
      }
      assert args == WriteDelay(delay, jitter, n.delayCorr);
      if n.reorder > 0.0 {
        args := AddClause(args, "reorder", n.reorder, n.reorderCorr);
        args := AddCount(args, "gap", n.gap);
      }
    }
  }

  /** An unreadable or negative duration is refused. Otherwise the arguments decode to the settings that take
      effect: jitter, correlations and reordering vanish exactly when the field that enables them is zero. */
  method ConvertNetemToArgs(n: Netem) returns (r: Option<seq<Token>>)
    ensures r.Some? <==> Acceptable(n.time) && Acceptable(n.jitter)
    ensures r.Some? ==> Decode(r.value) == Some(SettingsOf(n))
  {
    hide WriteDelay, WriteReorder, WriteCount, WriteClause, Decode;
    var delay := OptionalDuration(n.time);
    if delay.None? { return None; }
    var jitter := OptionalDuration(n.jitter);
    if jitter.None? { return None; }

    var args := DelayArgs(n, delay.value, jitter.value);
    args := AddCount(args, "limit", n.limit);
    args := AddClause(args, "loss", n.loss, n.lossCorr);
    args := AddClause(args, "duplicate", n.duplicate, n.duplicateCorr);
    args := AddClause(args, "corrupt", n.corrupt, n.corruptCorr);
    args := args + if n.rate != "" then [Keyword("rate"), Text(n.rate)] else [];

    EncodedReadsBack(n, delay.value, jitter.value);
    assert args == Encode(n, delay.value, jitter.value);
    r := Some(args);
  }

  /** Two readable requests produce the same arguments only if the same settings take effect. */
  lemma ArgumentsDetermineSettings(n: Netem, m: Netem)
    requires Readable(n) && Readable(m)
    requires Encode(n, OptionalDuration(n.time).value, OptionalDuration(n.jitter).value)
          == Encode(m, OptionalDuration(m.time).value, OptionalDuration(m.jitter).value)
    ensures SettingsOf(n) == SettingsOf(m)
  {
    EncodedReadsBack(n, OptionalDuration(n.time).value, OptionalDuration(n.jitter).value);
    EncodedReadsBack(m, OptionalDuration(m.time).value, OptionalDuration(m.jitter).value);
  }
}
