/** Contact import from an uploaded file. Two handlers are registered for
    `POST /subir-contactos`; both turn digit strings into chat addresses
    (`52` is prepended to a 10-digit number, then `@s.whatsapp.net`):
    - the first (the one Express serves) scans every line for digit runs,
      keeps runs of at least 10 digits and de-duplicates them with a Set;
    - the second reads a `.txt` (one number per line) or a `.csv` (10 to
      15-digit words), strips non-digits, rejects fewer than 10 digits, and
      inserts sequentially, reporting one detail per input line. */
module Import {
  import opened Wrappers
  import Text
  import Store
  import Upload

  /** Address suffix of an individual chat. */
  const WaSuffix := "@s.whatsapp.net"

  /** Country code assumed for a number of exactly 10 digits (Mexico). */
  const DefaultCountry := "52"

  /** Digit count below which a number is rejected (or ignored). */
  const MinDigits := 10

  /** The digits of an accepted number before the suffix is appended. */
  function WithCountry(d: string): string {
    if |d| == MinDigits then DefaultCountry + d else d
  }

  /** The address a digit string of at least 10 digits is stored under. */
  function FormatDigits(d: string): (r: string)
    requires Text.AllDigits(d) && |d| >= MinDigits
    ensures Text.EndsWith(r, WaSuffix)
    ensures r[..|r| - |WaSuffix|] == WithCountry(d)
    ensures Text.AllDigits(r[..|r| - |WaSuffix|]) && |r| - |WaSuffix| >= 11
  {
    var w := WithCountry(d);
    assert (w + WaSuffix)[..|w|] == w;
    w + WaSuffix
  }

  datatype ImportError = TooShort

  /** `numero.replace(/\D/g, '')`, the 10-digit check, the country code
      and the suffix, in that order. */
  function Normalize(raw: string): (r: Result<string, ImportError>)
    ensures r.Err? <==> |Text.KeepDigits(raw)| < MinDigits
    ensures r.Ok? ==> r.value == FormatDigits(Text.KeepDigits(raw))
  {
    var d := Text.KeepDigits(raw);
    if |d| < MinDigits then Err(TooShort) else Ok(FormatDigits(d))
  }

  /** The part of an address before `@s.whatsapp.net`. */
  function AddressDigits(addr: string): string
    requires Text.EndsWith(addr, WaSuffix)
  {
    addr[..|addr| - |WaSuffix|]
  }

  /** What an accepted number looks like: the suffix, preceded only by
      digits, which are the input's digits with `52` in front when there
      were exactly 10 of them. */
  lemma NormalizeShape(raw: string)
    requires Normalize(raw).Ok?
    ensures var (r, d) := (Normalize(raw).value, Text.KeepDigits(raw));
      && Text.EndsWith(r, WaSuffix)
      && Text.AllDigits(AddressDigits(r))
      && (|d| == 10 ==> AddressDigits(r) == "52" + d)
      && (|d| > 10 ==> AddressDigits(r) == d)
  {
  }

  lemma SuffixHasNoDigits()
    ensures Text.KeepDigits(WaSuffix) == []
  {
    assert forall k | 0 <= k < |WaSuffix| :: !Text.IsDigit(WaSuffix[k]);
    Text.KeepDigitsOfNoDigits(WaSuffix);
  }

  /** Normalising an address that normalisation produced gives it back:
      importing the exported addresses again changes nothing. */
  lemma NormalizeIdempotent(raw: string)
    requires Normalize(raw).Ok?
    ensures Normalize(Normalize(raw).value) == Normalize(raw)
  {
    var r := Normalize(raw).value;
    var w := AddressDigits(r);
    assert r == w + WaSuffix;
    Text.KeepDigitsAppend(w, WaSuffix);
    Text.KeepDigitsOfDigits(w);
    SuffixHasNoDigits();
    assert Text.KeepDigits(r) == w;
    assert |w| >= 11;
  }

  /** The first handler names a new contact `numero.replace('@s.whatsapp.net', '')`:
      for the addresses it builds, that is the digits with the country code. */
  lemma ImportedNameIsDigits(d: string)
    requires Text.AllDigits(d) && |d| >= MinDigits
    ensures Text.ReplaceFirst(FormatDigits(d), WaSuffix, "") == WithCountry(d)
  {
    var w := WithCountry(d);
    assert Text.AllDigits(w);
    assert FormatDigits(d) == w + WaSuffix;
    Text.ReplaceFirstAfterDigits(w, WaSuffix);
  }

  // -----------------------------------------------------------------------
  // First handler: digit runs, de-duplicated with a Set
  // -----------------------------------------------------------------------

  /** All digit runs (`linea.match(/\d+/g)`) of the lines, line after line. */
  function DigitRunsOf(lineas: seq<string>, n: nat): (runs: seq<string>)
    requires n <= |lineas|
    ensures forall k | 0 <= k < |runs| :: Text.AllDigits(runs[k])
  {
    if n == 0 then []
    else DigitRunsOf(lineas, n - 1) + Text.Runs(lineas[n - 1], Text.Digits)
  }

  /** A digit run the first handler keeps. */
  predicate LongRun(num: string) {
    Text.AllDigits(num) && |num| >= MinDigits
  }

  /** The addresses built from runs of at least 10 digits, in order and with
      repetitions. */
  function Accepted(runs: seq<string>): seq<string> {
    if runs == [] then []
    else
      var num := runs[|runs| - 1];
      Accepted(runs[..|runs| - 1]) + (if LongRun(num) then [FormatDigits(num)] else [])
  }

  /** Every address kept ends in the suffix. */
  lemma {:induction false} AcceptedAreAddresses(runs: seq<string>)
    ensures forall x | x in Accepted(runs) :: Text.EndsWith(x, WaSuffix)
  {
    if runs != [] {
      AcceptedAreAddresses(runs[..|runs| - 1]);
    }
  }

  /** The elements of `s` in the order a JavaScript Set first sees them. */
  function Dedup(s: seq<string>): seq<string> {
    if s == [] then []
    else
      var d := Dedup(s[..|s| - 1]);
      if s[|s| - 1] in d then d else d + [s[|s| - 1]]
  }

  /** The de-duplicated list has no repetition and the same elements. */
  lemma {:induction false} DedupDistinct(s: seq<string>)
    ensures Store.Distinct(Dedup(s))
    ensures Store.Elems(Dedup(s)) == Store.Elems(s)
  {
    if s != [] {
      var init := s[..|s| - 1];
      var x := s[|s| - 1];
      DedupDistinct(init);
      assert Store.Elems(s) == Store.Elems(init) + {x} by {
        assert s == init + [x];
      }
      if x !in Dedup(init) {
        Store.AppendFresh(Dedup(init), x);
      }
    }
  }

  lemma AcceptedSnoc(runs: seq<string>, num: string)
    ensures Accepted(runs + [num]) ==
      Accepted(runs) + (if LongRun(num) then [FormatDigits(num)] else [])
  {
    assert (runs + [num])[..|runs|] == runs;
  }

  lemma DedupSnoc(s: seq<string>, x: string)
    ensures Dedup(s + [x]) == if x in Dedup(s) then Dedup(s) else Dedup(s) + [x]
  {
    assert (s + [x])[..|s|] == s;
  }

  /** First-seen order: what has been kept stays in front, in place, and
      whatever later input adds comes after it and was not seen before. */
  lemma {:induction false} DedupFirstSeen(s: seq<string>, t: seq<string>)
    ensures Dedup(s) <= Dedup(s + t)
    ensures forall x | x in Dedup(s + t)[|Dedup(s)|..] :: x !in s
    decreases |t|
  {
    if t == [] {
      assert s + t == s;
    } else {
      var t', x := t[..|t| - 1], t[|t| - 1];
      assert s + t == (s + t') + [x];
      DedupFirstSeen(s, t');
      DedupSnoc(s + t', x);
      var d, d' := Dedup(s + t'), Dedup(s + t);
      if x !in d {
        DedupDistinct(s + t');
        assert x !in Store.Elems(s + t');
        assert forall y | y in s :: y in Store.Elems(s + t');
        assert d'[|Dedup(s)|..] == d[|Dedup(s)|..] + [x];
      }
    }
  }

  /** One more digit run adds its address to the set unless it is short or
      already there. */
  lemma AddRunStep(prev: seq<string>, num: string)
    requires Text.AllDigits(num)
    ensures var (d, d') := (Dedup(Accepted(prev)), Dedup(Accepted(prev + [num])));
      && (|num| < MinDigits ==> d' == d)
      && (|num| >= MinDigits ==> d' == if FormatDigits(num) in d then d else d + [FormatDigits(num)])
  {
    AcceptedSnoc(prev, num);
    if |num| >= MinDigits {
      DedupSnoc(Accepted(prev), FormatDigits(num));
    } else {
      assert Accepted(prev + [num]) == Accepted(prev);
    }
  }

  /** A list without repetitions has as many elements as its set. */
  lemma {:induction false} DistinctCardinality(s: seq<string>)
    requires Store.Distinct(s)
    ensures |Store.Elems(s)| == |s|
  {
    if s != [] {
      var init := s[..|s| - 1];
      assert Store.Distinct(init);
      DistinctCardinality(init);
      assert s == init + [s[|s| - 1]];
      assert Store.Elems(s) == Store.Elems(init) + {s[|s| - 1]};
    }
  }

  /** The addresses of a file's text, with repetitions. */
  function FormattedNumbers(content: string): seq<string> {
    var lineas := Text.Split(content, '\n');
    Accepted(DigitRunsOf(lineas, |lineas|))
  }

  /** Lines 148-160 for the i-th line: find its digit runs and add each
      run of at least 10 digits, formatted, unless the set already holds
      it. */
  method AddLineNumbers(numeros: seq<string>, lineas: seq<string>, i: nat)
    returns (r: seq<string>)
    requires i < |lineas| && numeros == Dedup(Accepted(DigitRunsOf(lineas, i)))
    ensures r == Dedup(Accepted(DigitRunsOf(lineas, i + 1)))
  {
    var runs := Text.Runs(lineas[i], Text.Digits);
    r := AddRuns(numeros, DigitRunsOf(lineas, i), runs);
  }

  /** The inner loop of lines 149-160 over one line's runs. */
  method AddRuns(numeros: seq<string>, ghost seen: seq<string>, runs: seq<string>)
    returns (r: seq<string>)
    requires forall k | 0 <= k < |runs| :: Text.AllDigits(runs[k])
    requires numeros == Dedup(Accepted(seen))
    ensures r == Dedup(Accepted(seen + runs))
  {
    r := numeros;
    var j := 0;
    ghost var prev := seen;
    while j < |runs|
      invariant 0 <= j <= |runs|
      invariant prev == seen + runs[..j]
      invariant r == Dedup(Accepted(prev))
    {
      var num := runs[j];
      AddRunStep(prev, num);
      if |num| >= MinDigits {
        var formateado := FormatDigits(num);
        if formateado !in r {
          r := r + [formateado];
        }
      }
      prev := prev + [num];
      assert prev == seen + runs[..j + 1];
      j := j + 1;
    }
    assert runs[..|runs|] == runs;
  }

  /** Lines 146-163: every accepted address exactly once, in first-seen
      order, so the list is as long as the set of distinct addresses. */
  method ExtractUniqueNumbers(content: string) returns (numeros: seq<string>)
    ensures numeros == Dedup(FormattedNumbers(content))
  {
    var lineas := Text.Split(content, '\n');
    numeros := [];
    var i := 0;
    while i < |lineas|
      invariant 0 <= i <= |lineas|
      invariant numeros == Dedup(Accepted(DigitRunsOf(lineas, i)))
    {
      numeros := AddLineNumbers(numeros, lineas, i);
      i := i + 1;
    }
  }

  /** What the extracted list is: every accepted address exactly once, so
      as long as the set of distinct addresses. */
  lemma UniqueNumbers(content: string)
    ensures var numeros := Dedup(FormattedNumbers(content));
      && Store.Distinct(numeros)
      && Store.Elems(numeros) == Store.Elems(FormattedNumbers(content))
      && |numeros| == |Store.Elems(FormattedNumbers(content))|
  {
    DedupDistinct(FormattedNumbers(content));
    DistinctCardinality(Dedup(FormattedNumbers(content)));
  }

  /** The row the first handler inserts for an address absent from the
      table: named after the address without its suffix, label `nuevo`. */
  function UniqueEntry(numero: string, fecha: string): Store.Entry {
    Store.Entry(numero, Store.NewContact(Text.ReplaceFirst(numero, WaSuffix, ""), "nuevo", fecha))
  }

  function UniqueEntries(numeros: seq<string>, fecha: string): (es: seq<Store.Entry>)
    ensures |es| == |numeros|
    ensures forall i | 0 <= i < |numeros| :: es[i] == UniqueEntry(numeros[i], fecha)
  {
    if numeros == [] then []
    else UniqueEntries(numeros[..|numeros| - 1], fecha) + [UniqueEntry(numeros[|numeros| - 1], fecha)]
  }

  // -----------------------------------------------------------------------
  // Second handler: `.txt` and `.csv` readers, sequential inserts
  // -----------------------------------------------------------------------

  /** ASCII lower case; `toLowerCase` agrees with it on everything that
      can lower to `.txt` or `.csv`. */
  function LowerAscii(s: string): (r: string)
    ensures |r| == |s|
    ensures forall k | 0 <= k < |r| :: !IsUpper(r[k])
    ensures forall k | 0 <= k < |s| && !IsUpper(s[k]) :: r[k] == s[k]
    ensures forall k | 0 <= k < |s| && IsUpper(s[k]) :: r[k] == (s[k] as int + 32) as char
  {
    if s == [] then []
    else
      var c := s[0];
      [if 'A' <= c <= 'Z' then (c as int + 32) as char else c] + LowerAscii(s[1..])
  }

  predicate IsUpper(c: char) {
    'A' <= c <= 'Z'
  }

  /** Lowering twice is lowering once. */
  lemma LowerAsciiIdempotent(s: string)
    ensures LowerAscii(LowerAscii(s)) == LowerAscii(s)
  {
    var r := LowerAscii(s);
    var rr := LowerAscii(r);
    assert forall k | 0 <= k < |r| :: rr[k] == r[k];
  }

  /** What `f` reads from each line, concatenated in line order. */
  function ByLine(lineas: seq<string>, f: string -> seq<string>): seq<string> {
    if lineas == [] then [] else ByLine(lineas[..|lineas| - 1], f) + f(lineas[|lineas| - 1])
  }

  /** Reading line by line distributes over a split of the lines. */
  lemma {:induction false} ByLineAppend(a: seq<string>, b: seq<string>, f: string -> seq<string>)
    ensures ByLine(a + b, f) == ByLine(a, f) + ByLine(b, f)
  {
    if b == [] {
      assert a + b == a;
    } else {
      var b' := b[..|b| - 1];
      assert (a + b)[..|a + b| - 1] == a + b';
      assert (a + b)[|a + b| - 1] == b[|b| - 1];
      ByLineAppend(a, b', f);
    }
  }

  /** A `.txt` line is its trimmed text, unless that is empty. */
  function TxtLine(linea: string): seq<string> {
    var t := Text.Trim(linea);
    if t == [] then [] else [t]
  }

  /** `.txt`: every trimmed, non-empty line is one number. */
  function TxtNumbers(lineas: seq<string>): (r: seq<string>)
    ensures forall k | 0 <= k < |r| :: r[k] != []
    ensures |r| <= |lineas|
    ensures forall x :: x in r <==> InTxtLines(lineas, x)
  {
    if lineas == [] then []
    else
      var init := lineas[..|lineas| - 1];
      var front, back := TxtNumbers(init), TxtLine(lineas[|lineas| - 1]);
      assert forall x :: x in front + back <==> InTxtLines(lineas, x) by {
        forall x ensures x in front + back <==> InTxtLines(lineas, x) {
          TxtLinesSnoc(lineas, x);
        }
      }
      front + back
  }

  /** Some line satisfies `p` exactly when one of the earlier lines or
      the last one does. */
  lemma AnyLineSnoc(lineas: seq<string>, init: seq<string>, p: string -> bool)
    requires lineas != [] && init == lineas[..|lineas| - 1]
    ensures (exists i | 0 <= i < |lineas| :: p(lineas[i])) <==>
              (exists i | 0 <= i < |init| :: p(init[i])) || p(lineas[|lineas| - 1])
  {
    assert forall i | 0 <= i < |init| :: init[i] == lineas[i];
  }

  /** `x` is the trimmed `linea`, and not empty. */
  predicate InTxtLine(linea: string, x: string) {
    x == Text.Trim(linea) && x != []
  }

  predicate InTxtLines(lineas: seq<string>, x: string) {
    exists i | 0 <= i < |lineas| :: InTxtLine(lineas[i], x)
  }

  lemma TxtLinesSnoc(lineas: seq<string>, x: string)
    requires lineas != []
    ensures InTxtLines(lineas, x) <==>
              InTxtLines(lineas[..|lineas| - 1], x) || InTxtLine(lineas[|lineas| - 1], x)
  {
    AnyLineSnoc(lineas, lineas[..|lineas| - 1], l => InTxtLine(l, x));
  }

  /** Reading two runs of lines reads the first run's numbers, then the
      second's: the reader keeps line order and every repetition. */
  lemma {:induction false} TxtNumbersAppend(a: seq<string>, b: seq<string>)
    ensures TxtNumbers(a + b) == TxtNumbers(a) + TxtNumbers(b)
  {
    TxtNumbersByLine(a + b);
    TxtNumbersByLine(a);
    TxtNumbersByLine(b);
    ByLineAppend(a, b, TxtLine);
  }

  lemma {:induction false} TxtNumbersByLine(lineas: seq<string>)
    ensures TxtNumbers(lineas) == ByLine(lineas, TxtLine)
  {
    if lineas != [] {
      TxtNumbersByLine(lineas[..|lineas| - 1]);
    }
  }

  /** One line is one number, trimmed, unless it is blank. */
  lemma TxtNumbersOne(linea: string)
    ensures TxtNumbers([linea]) == if Text.Trim(linea) == [] then [] else [Text.Trim(linea)]
  {
    assert [linea][..0] == [];
  }

  /** `\b\d{10,15}\b`: whole words made of 10 to 15 digits. */
  predicate IsCsvNumber(w: string) {
    Text.AllDigits(w) && 10 <= |w| <= 15
  }

  function Filter(words: seq<string>): (r: seq<string>)
    ensures forall k | 0 <= k < |r| :: IsCsvNumber(r[k])
    ensures forall w :: w in r <==> w in words && IsCsvNumber(w)
  {
    if words == [] then []
    else
      var w := words[|words| - 1];
      assert words == words[..|words| - 1] + [w];
      Filter(words[..|words| - 1]) + (if IsCsvNumber(w) then [w] else [])
  }

  /** `.csv`: every number-looking word of every non-empty trimmed line. */
  function CsvNumbers(lineas: seq<string>): (r: seq<string>)
    ensures forall k | 0 <= k < |r| :: IsCsvNumber(r[k])
  {
    if lineas == [] then []
    else CsvNumbers(lineas[..|lineas| - 1]) + CsvLine(lineas[|lineas| - 1])
  }

  /** A word is read from the `.csv` lines exactly when the regular
      expression finds it on one of the non-blank trimmed lines. */
  lemma {:induction false} CsvNumbersMembers(lineas: seq<string>)
    ensures forall w :: w in CsvNumbers(lineas) <==> InCsvLines(lineas, w)
  {
    if lineas != [] {
      var init := lineas[..|lineas| - 1];
      CsvNumbersMembers(init);
      forall w ensures w in CsvNumbers(lineas) <==> InCsvLines(lineas, w) {
        CsvLinesSnoc(lineas, w);
      }
    }
  }

  /** The numbers the regular expression finds on one line: none on a
      blank line. */
  function CsvLine(linea: string): (r: seq<string>)
    ensures forall k | 0 <= k < |r| :: IsCsvNumber(r[k])
  {
    var t := Text.Trim(linea);
    if t == [] then [] else Filter(Text.Runs(t, Text.Word))
  }

  /** `w` is a number the regular expression finds on the trimmed `linea`. */
  predicate InCsvLine(linea: string, w: string) {
    Text.Trim(linea) != [] && w in Text.Runs(Text.Trim(linea), Text.Word) && IsCsvNumber(w)
  }

  predicate InCsvLines(lineas: seq<string>, w: string) {
    exists i | 0 <= i < |lineas| :: InCsvLine(lineas[i], w)
  }

  lemma CsvLinesSnoc(lineas: seq<string>, w: string)
    requires lineas != []
    ensures InCsvLines(lineas, w) <==>
              InCsvLines(lineas[..|lineas| - 1], w) || InCsvLine(lineas[|lineas| - 1], w)
  {
    AnyLineSnoc(lineas, lineas[..|lineas| - 1], l => InCsvLine(l, w));
  }

  /** The `.csv` reader keeps line order and every repetition. */
  lemma {:induction false} CsvNumbersAppend(a: seq<string>, b: seq<string>)
    ensures CsvNumbers(a + b) == CsvNumbers(a) + CsvNumbers(b)
  {
    CsvNumbersByLine(a + b);
    CsvNumbersByLine(a);
    CsvNumbersByLine(b);
    ByLineAppend(a, b, CsvLine);
  }

  lemma {:induction false} CsvNumbersByLine(lineas: seq<string>)
    ensures CsvNumbers(lineas) == ByLine(lineas, CsvLine)
  {
    if lineas != [] {
      CsvNumbersByLine(lineas[..|lineas| - 1]);
    }
  }

  /** A non-blank line yields its number-looking words, in order. */
  lemma CsvNumbersOne(linea: string)
    ensures CsvNumbers([linea]) ==
              if Text.Trim(linea) == [] then [] else Filter(Text.Runs(Text.Trim(linea), Text.Word))
  {
    assert [linea][..0] == [];
    assert CsvNumbers([linea]) == CsvNumbers([]) + CsvLine(linea);
  }

  /** The numbers of a file, by extension; `None` for any other format. */
  function ReadNumbers(extension: string, content: string): (r: Option<seq<string>>)
    ensures r.Some? <==> LowerAscii(extension) == ".txt" || LowerAscii(extension) == ".csv"
    ensures LowerAscii(extension) == ".txt" ==> forall k | 0 <= k < |r.value| :: r.value[k] != []
    ensures LowerAscii(extension) == ".csv" ==> forall k | 0 <= k < |r.value| :: IsCsvNumber(r.value[k])
    ensures LowerAscii(extension) == ".txt" ==>
              forall x :: x in r.value <==> InTxtLines(Text.Split(content, '\n'), x)
    ensures LowerAscii(extension) == ".csv" ==>
              forall w :: w in r.value <==> InCsvLines(Text.Split(content, '\n'), w)
  {
    var ext := LowerAscii(extension);
    if ext == ".txt" then Some(TxtNumbers(Text.Split(content, '\n')))
    else if ext == ".csv" then
      CsvNumbersMembers(Text.Split(content, '\n'));
      Some(CsvNumbers(Text.Split(content, '\n')))
    else None
  }

  /** The extension is compared case-insensitively: lowering it first
      reads the same numbers. */
  lemma ReadNumbersIgnoresCase(extension: string, content: string)
    ensures ReadNumbers(LowerAscii(extension), content) == ReadNumbers(extension, content)
  {
    LowerAsciiIdempotent(extension);
  }

  /** Every number the `.csv` reader returns is accepted by normalisation:
      it is all digits, and at least 10 of them. */
  lemma CsvNumbersNormalize(content: string, k: nat)
    requires k < |CsvNumbers(Text.Split(content, '\n'))|
    ensures var n := CsvNumbers(Text.Split(content, '\n'))[k];
      Normalize(n) == Ok(FormatDigits(n))
  {
    var n := CsvNumbers(Text.Split(content, '\n'))[k];
    Text.KeepDigitsOfDigits(n);
  }

  /** The error text of a number with fewer than 10 digits. */
  const TooShortText := "N\U{00FA}mero muy corto"

  datatype Estado = Nuevo | Existente | Fallido(error: string)

  datatype Detalle = Detalle(numero: string, estado: Estado)

  datatype Counts = Counts(nuevos: nat, existentes: nat, errores: nat)

  /** How many details fall in each state. */
  function Tally(ds: seq<Detalle>): (c: Counts)
    ensures c.nuevos + c.existentes + c.errores == |ds|
  {
    if ds == [] then Counts(0, 0, 0)
    else
      var c := Tally(ds[..|ds| - 1]);
      match ds[|ds| - 1].estado
      case Nuevo => c.(nuevos := c.nuevos + 1)
      case Existente => c.(existentes := c.existentes + 1)
      case Fallido(_) => c.(errores := c.errores + 1)
  }

  /** The row the second handler inserts: named `Contacto <as read>`. */
  function ImportEntry(numero: string, formateado: string, fecha: string): Store.Entry {
    Store.Entry(formateado, Store.NewContact("Contacto " + numero, "nuevo", fecha))
  }

  datatype Progress = Progress(table: Store.Table, detalles: seq<Detalle>)

  /** What the detail of one number read says: an error carrying the
      number as read exactly when it has fewer than 10 digits, otherwise
      the normalised address. */
  predicate Reports(numero: string, d: Detalle) {
    && (d.estado.Fallido? <==> Normalize(numero).Err?)
    && (d.estado.Fallido? ==> d == Detalle(numero, Fallido(TooShortText)))
    && (!d.estado.Fallido? ==> d.numero == Normalize(numero).value)
  }

  /** One iteration of the second handler's loop. */
  function ImportStep(t: Store.Table, numero: string, fecha: string): (r: Progress)
    requires t.Valid()
    ensures r.table.Valid()
  {
    match Normalize(numero)
    case Err(_) => Progress(t, [Detalle(numero, Fallido(TooShortText))])
    case Ok(f) =>
      if f in t.clientes then Progress(t, [Detalle(f, Existente)])
      else Progress(Store.Insert(t, ImportEntry(numero, f, fecha)), [Detalle(f, Nuevo)])
  }

  /** The second handler's loop over the numbers read, in order. */
  function ImportRun(t: Store.Table, numeros: seq<string>, fecha: string): (r: Progress)
    requires t.Valid()
    ensures r.table.Valid()
  {
    if numeros == [] then Progress(t, [])
    else
      var p := ImportRun(t, numeros[..|numeros| - 1], fecha);
      var q := ImportStep(p.table, numeros[|numeros| - 1], fecha);
      Progress(q.table, p.detalles + q.detalles)
  }

  /** The insert requests of the accepted numbers. */
  function ImportEntries(numeros: seq<string>, fecha: string): seq<Store.Entry> {
    if numeros == [] then []
    else
      var numero := numeros[|numeros| - 1];
      ImportEntries(numeros[..|numeros| - 1], fecha)
      + match Normalize(numero)
        case Err(_) => []
        case Ok(f) => [ImportEntry(numero, f, fecha)]
  }

  /** The table after the loop is the guarded inserts of the accepted
      numbers: existing contacts are never modified, rejected numbers
      change nothing. */
  lemma {:induction false} ImportRunInserts(t: Store.Table, numeros: seq<string>, fecha: string)
    requires t.Valid()
    ensures ImportRun(t, numeros, fecha).table == Store.InsertAll(t, ImportEntries(numeros, fecha))
  {
    if numeros != [] {
      var init := numeros[..|numeros| - 1];
      var numero := numeros[|numeros| - 1];
      ImportRunInserts(t, init, fecha);
      var es := ImportEntries(init, fecha);
      match Normalize(numero)
      case Err(_) =>
        assert ImportEntries(numeros, fecha) == es;
      case Ok(f) =>
        var all := es + [ImportEntry(numero, f, fecha)];
        assert ImportEntries(numeros, fecha) == all;
        assert all[..|all| - 1] == es;
    }
  }

  /** One detail per number read, in order, each reporting its number. */
  lemma {:induction false} ImportRunDetails(t: Store.Table, numeros: seq<string>, fecha: string)
    requires t.Valid()
    ensures var ds := ImportRun(t, numeros, fecha).detalles;
      && |ds| == |numeros|
      && forall i | 0 <= i < |numeros| :: Reports(numeros[i], ds[i])
  {
    if numeros != [] {
      var init := numeros[..|numeros| - 1];
      ImportRunDetails(t, init, fecha);
      var p := ImportRun(t, init, fecha);
      var q := ImportStep(p.table, numeros[|numeros| - 1], fecha);
      assert q.detalles == [q.detalles[0]];
      assert numeros == init + [numeros[|numeros| - 1]];
      ReportsSnoc(init, p.detalles, numeros[|numeros| - 1], q.detalles[0]);
    }
  }

  /** Details that report their numbers, extended by one more such pair. */
  lemma ReportsSnoc(numeros: seq<string>, ds: seq<Detalle>, numero: string, d: Detalle)
    requires |ds| == |numeros| && forall i | 0 <= i < |numeros| :: Reports(numeros[i], ds[i])
    requires Reports(numero, d)
    ensures forall i | 0 <= i <= |numeros| :: Reports((numeros + [numero])[i], (ds + [d])[i])
  {
  }

  /** The table grows by exactly the number of `nuevo` details. */
  lemma {:induction false} ImportRunGrowth(t: Store.Table, numeros: seq<string>, fecha: string)
    requires t.Valid()
    ensures var r := ImportRun(t, numeros, fecha);
      |r.table.orden| == |t.orden| + Tally(r.detalles).nuevos
  {
    if numeros != [] {
      var init := numeros[..|numeros| - 1];
      ImportRunGrowth(t, init, fecha);
      var p := ImportRun(t, init, fecha);
      var q := ImportStep(p.table, numeros[|numeros| - 1], fecha);
      var ds := p.detalles + q.detalles;
      assert ds[..|ds| - 1] == p.detalles;
    }
  }

  datatype Resumen = Resumen(total: nat, nuevos: nat, existentes: nat, errores: nat, detalles: seq<Detalle>)

  /** Lines 1079-1142 for one number: normalise it, then look it up and
      insert it when absent. */
  method ImportOne(store: Store.ContactStore, numero: string, fecha: string) returns (d: Detalle)
    requires store.Valid()
    modifies store
    ensures store.Valid() && store.mensajes == old(store.mensajes)
    ensures ImportStep(old(store.Rows()), numero, fecha) == Progress(store.Rows(), [d])
  {
    var soloDigitos := Text.KeepDigits(numero);
    if |soloDigitos| < MinDigits {
      d := Detalle(numero, Fallido(TooShortText));
    } else {
      var formateado := FormatDigits(soloDigitos);
      if formateado in store.clientes {
        d := Detalle(formateado, Existente);
      } else {
        var _ := store.InsertIfAbsent(ImportEntry(numero, formateado, fecha));
        d := Detalle(formateado, Nuevo);
      }
    }
  }

  /** One number read yields one detail, which reports it; the table
      changes only for a `nuevo` detail, by appending that absent address. */
  lemma StepReports(t: Store.Table, numero: string, fecha: string)
    requires t.Valid()
    ensures var r := ImportStep(t, numero, fecha);
      && |r.detalles| == 1 && Reports(numero, r.detalles[0])
      && (r.detalles[0].estado == Nuevo ==>
            r.detalles[0].numero !in t.clientes && r.table.orden == t.orden + [r.detalles[0].numero])
      && (r.detalles[0].estado != Nuevo ==> r.table == t)
  {
  }

  /** One more number read extends the run by that number's step. */
  lemma ImportRunSnoc(t: Store.Table, numeros: seq<string>, i: nat, fecha: string)
    requires t.Valid() && i < |numeros|
    ensures var p := ImportRun(t, numeros[..i], fecha);
      var q := ImportStep(p.table, numeros[i], fecha);
      ImportRun(t, numeros[..i + 1], fecha) == Progress(q.table, p.detalles + q.detalles)
  {
    assert numeros[..i + 1][..i] == numeros[..i];
  }

  /** One more detail adds one to the counter of its state. */
  lemma TallySnoc(ds: seq<Detalle>, d: Detalle)
    ensures var (c, c') := (Tally(ds), Tally(ds + [d]));
      c' == match d.estado
        case Nuevo => c.(nuevos := c.nuevos + 1)
        case Existente => c.(existentes := c.existentes + 1)
        case Fallido(_) => c.(errores := c.errores + 1)
  {
    assert (ds + [d])[..|ds|] == ds;
  }

  /** One iteration of the loop: the run over the first `i + 1` numbers
      is the run over the first `i` followed by the i-th number's step. */
  method ImportNext(store: Store.ContactStore, numeros: seq<string>, i: nat, fecha: string,
                    ghost t0: Store.Table, ghost detalles: seq<Detalle>) returns (d: Detalle)
    requires store.Valid() && t0.Valid() && i < |numeros|
    requires ImportRun(t0, numeros[..i], fecha) == Progress(store.Rows(), detalles)
    modifies store
    ensures store.Valid() && store.mensajes == old(store.mensajes)
    ensures ImportRun(t0, numeros[..i + 1], fecha) == Progress(store.Rows(), detalles + [d])
  {
    ImportRunSnoc(t0, numeros, i, fecha);
    d := ImportOne(store, numeros[i], fecha);
  }

  /** Lines 1075-1148: the loop, with the lookup awaited before each
      insert. */
  method ImportNumbers(store: Store.ContactStore, numeros: seq<string>, fecha: string) returns (res: Resumen)
    requires store.Valid()
    modifies store
    ensures store.Valid() && store.mensajes == old(store.mensajes)
    ensures store.Rows() == ImportRun(old(store.Rows()), numeros, fecha).table
    ensures res.detalles == ImportRun(old(store.Rows()), numeros, fecha).detalles
    ensures res.total == |numeros|
    ensures Counts(res.nuevos, res.existentes, res.errores) == Tally(res.detalles)
  {
    ghost var t0 := store.Rows();
    var nuevos, existentes, errores := 0, 0, 0;
    var detalles: seq<Detalle> := [];
    var i := 0;
    while i < |numeros|
      invariant 0 <= i <= |numeros|
      invariant store.Valid() && store.mensajes == old(store.mensajes)
      invariant ImportRun(t0, numeros[..i], fecha) == Progress(store.Rows(), detalles)
      invariant Counts(nuevos, existentes, errores) == Tally(detalles)
    {
      var d := ImportNext(store, numeros, i, fecha, t0, detalles);
      TallySnoc(detalles, d);
      match d.estado {
        case Nuevo => nuevos := nuevos + 1;
        case Existente => existentes := existentes + 1;
        case Fallido(_) => errores := errores + 1;
      }
      detalles := detalles + [d];
      i := i + 1;
      assert ImportRun(t0, numeros[..i], fecha) == Progress(store.Rows(), detalles);
    }
    assert numeros[..|numeros|] == numeros;
    res := Resumen(|numeros|, nuevos, existentes, errores, detalles);
  }

  /** Lines 169-200 with every lookup answered before the summary is
      built: each distinct address is inserted when absent. */
  method InsertUnique(store: Store.ContactStore, numeros: seq<string>, fecha: string)
    returns (nuevos: nat, existentes: nat)
    requires store.Valid()
    modifies store
    ensures store.Valid() && store.mensajes == old(store.mensajes)
    ensures store.Rows() == Store.InsertAll(old(store.Rows()), UniqueEntries(numeros, fecha))
    ensures nuevos + existentes == |numeros|
    ensures |store.orden| == |old(store.orden)| + nuevos
  {
    ghost var t0 := store.Rows();
    ghost var done: seq<Store.Entry> := [];
    nuevos, existentes := 0, 0;
    var i := 0;
    while i < |numeros|
      invariant 0 <= i <= |numeros|
      invariant store.Valid() && store.mensajes == old(store.mensajes)
      invariant |done| == i && forall k | 0 <= k < i :: done[k] == UniqueEntry(numeros[k], fecha)
      invariant store.Rows() == Store.InsertAll(t0, done)
      invariant nuevos + existentes == i
      invariant |store.orden| == |t0.orden| + nuevos
    {
      var e := UniqueEntry(numeros[i], fecha);
      Store.InsertAllAppend(t0, done, e);
      var inserted := store.InsertIfAbsent(e);
      if inserted {
        nuevos := nuevos + 1;
      } else {
        existentes := existentes + 1;
      }
      done := done + [e];
      i := i + 1;
    }
    assert done == UniqueEntries(numeros, fecha);
  }

  /** Why an upload is refused before any number is read. */
  datatype Rejection = NoFile | UnsupportedFormat

  /** A received upload: the path multer stored it under and its text. */
  datatype UploadedFile = UploadedFile(path: string, content: string)

  /** The served `POST /subir-contactos` (line 132): unique digit runs,
      inserted when absent. It reports no errors of its own. */
  method UploadContacts(store: Store.ContactStore, file: Option<UploadedFile>, fecha: string)
    returns (r: Result<Resumen, Rejection>)
    requires store.Valid()
    modifies store
    ensures store.Valid() && store.mensajes == old(store.mensajes)
    ensures file.None? ==> r == Err(NoFile) && store.Rows() == old(store.Rows())
    ensures file.Some? ==>
      var numeros := Dedup(FormattedNumbers(file.value.content));
      && r.Ok?
      && store.Rows() == Store.InsertAll(old(store.Rows()), UniqueEntries(numeros, fecha))
      && r.value.total == |numeros|
      && r.value.nuevos + r.value.existentes == r.value.total
      && |store.orden| == |old(store.orden)| + r.value.nuevos
      && r.value.errores == 0
  {
    if file.None? {
      return Err(NoFile);
    }
    var numeros := ExtractUniqueNumbers(file.value.content);
    var nuevos, existentes := InsertUnique(store, numeros, fecha);
    r := Ok(Resumen(|numeros|, nuevos, existentes, 0, []));
  }

  /** The shadowed `POST /subir-contactos` (line 1026): `.txt` or `.csv`,
      then the sequential import loop. */
  method UploadContactFile(store: Store.ContactStore, file: Option<UploadedFile>, fecha: string)
    returns (r: Result<Resumen, Rejection>)
    requires store.Valid()
    modifies store
    ensures store.Valid() && store.mensajes == old(store.mensajes)
    ensures file.None? ==> r == Err(NoFile)
    ensures file.Some? && ReadNumbers(Upload.ExtName(file.value.path), file.value.content).None? ==>
      r == Err(UnsupportedFormat)
    ensures r.Err? ==> store.Rows() == old(store.Rows())
    ensures file.Some? && ReadNumbers(Upload.ExtName(file.value.path), file.value.content).Some? ==>
      var numeros := ReadNumbers(Upload.ExtName(file.value.path), file.value.content).value;
      && r.Ok?
      && store.Rows() == ImportRun(old(store.Rows()), numeros, fecha).table
      && r.value.detalles == ImportRun(old(store.Rows()), numeros, fecha).detalles
      && r.value.total == |numeros|
      && Counts(r.value.nuevos, r.value.existentes, r.value.errores) == Tally(r.value.detalles)
  {
    if file.None? {
      return Err(NoFile);
    }
    var extension := Upload.ExtName(file.value.path);
    var leidos := ReadNumbers(extension, file.value.content);
    if leidos.None? {
      return Err(UnsupportedFormat);
    }
    var res := ImportNumbers(store, leidos.value, fecha);
    r := Ok(res);
  }
}
