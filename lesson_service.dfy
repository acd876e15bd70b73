/**
 * The lesson pipeline (src/services/lessonService.ts): the language model's
 * reply is stripped of its code fences, parsed, and normalised by
 * `validateAndProcessLesson` into a lesson that always has at least one step
 * and whose draw steps are always well formed; any failure, including a
 * TypeError thrown while a draw step's fields are converted, falls back to the
 * default lesson under the caller's topic, grade and subject.
 *
 * The model's reply and `JSON.parse` are inputs: the reply is `None` when the
 * call fails, and the parser is a function that answers `None` on malformed text.
 */
module LessonService {
  import opened Wrappers
  import Text
  import Seqs

  // ---------------------------------------------------------------------------
  // Untrusted JSON and the JavaScript coercions applied to it
  // ---------------------------------------------------------------------------

  /** A parsed JSON value. Numbers are integers here. */
  datatype Json =
    | JNull
    | JBool(b: bool)
    | JNum(n: int)
    | JStr(s: string)
    | JArr(items: seq<Json>)
    | JObj(fields: map<string, Json>)

  /** JavaScript truthiness. */
  predicate Truthy(j: Json) {
    match j
    case JNull => false
    case JBool(b) => b
    case JNum(n) => n != 0
    case JStr(s) => s != ""
    case JArr(_) => true
    case JObj(_) => true
  }

  /**
   * Property access `j.key`. A missing property reads as `undefined`, which
   * behaves like `null` in every use below; none of the keys read here is an
   * inherited property of arrays or strings.
   */
  function Get(j: Json, key: string): (r: Json)
    ensures r != JNull ==> j.JObj? && key in j.fields && r == j.fields[key]
    ensures j.JObj? && key in j.fields ==> r == j.fields[key]
  {
    if j.JObj? && key in j.fields then j.fields[key] else JNull
  }

  /** `a || b`. */
  function Or(a: Json, b: Json): (r: Json)
    ensures Truthy(a) ==> r == a
    ensures !Truthy(a) ==> r == b
  {
    if Truthy(a) then a else b
  }

  /**
   * Converting `j` to a primitive (`String(j)`, `Number(j)`, or the string a
   * regular expression tests) throws a TypeError. For a parsed object,
   * `valueOf` gives the object back, so the conversion needs `toString`; an
   * own `toString` key hides the inherited method behind a value that is not
   * a function. An array converts through `join`, which converts every
   * element that is not `null`.
   */
  predicate Throws(j: Json)
    decreases j
  {
    match j
    case JObj(fields) => "toString" in fields
    case JArr(items) => exists k :: 0 <= k < |items| && Throws(items[k])
    case _ => false
  }

  const TypeError := "TypeError: Cannot convert object to primitive value"

  /** `Number(s)` for a string: blank is 0, an optionally signed decimal integer is its value, anything else is NaN (`None`). */
  function StringToNumber(s: string): (r: Option<int>)
    ensures Text.AllDigits(Text.Trim(s)) ==> r == Some(if Text.Trim(s) == "" then 0 else Text.DecimalValue(Text.Trim(s)))
  {
    var t := Text.Trim(s);
    if Text.AllDigits(t) then Some(if t == "" then 0 else Text.DecimalValue(t))
    else if |t| > 1 && t[0] == '-' && Text.AllDigits(t[1..]) then Some(0 - Text.DecimalValue(t[1..]) as int)
    else if |t| > 1 && t[0] == '+' && Text.AllDigits(t[1..]) then Some(Text.DecimalValue(t[1..]))
    else None
  }

  /**
   * `String(j)`: the text JavaScript converts a value to, when the conversion
   * does not throw (see `Throws`). An array is its elements' texts joined by
   * ",", with `null` elements written as "".
   */
  function JsString(j: Json): string
    decreases j
  {
    match j
    case JNull => "null"
    case JBool(b) => if b then "true" else "false"
    case JNum(n) => Text.IntToString(n)
    case JStr(s) => s
    case JArr(items) =>
      Text.Join(seq(|items|, k requires 0 <= k < |items| => if items[k] == JNull then "" else JsString(items[k])), ",")
    case JObj(_) => "[object Object]"
  }

  /**
   * `Number(j)`, when the conversion does not throw (see `Throws`): NaN is
   * `None`. `null` reads as 0 (a missing property reads as NaN instead, which
   * every use below treats like 0), and an array reads as the number its
   * string form spells.
   */
  function ToNumber(j: Json): (r: Option<int>)
    ensures j.JNum? ==> r == Some(j.n)
    ensures j.JBool? ==> r == Some(if j.b then 1 else 0)
    ensures j.JStr? ==> r == StringToNumber(j.s)
    ensures j.JObj? ==> r.None?
    ensures j == JArr([]) ==> r == Some(0)
    ensures j.JArr? && |j.items| == 1 && j.items[0].JNum? ==> r == Some(j.items[0].n)
  {
    match j
    case JNull => Some(0)
    case JBool(b) => Some(if b then 1 else 0)
    case JNum(n) => Some(n)
    case JStr(s) => StringToNumber(s)
    case JArr(items) =>
      if |items| == 1 && items[0].JNum? then
        SingletonArrayString(items[0]);
        NumberOfIntToString(items[0].n);
        StringToNumber(JsString(j))
      else StringToNumber(JsString(j))
    case JObj(_) => None
  }

  /** An array of one non-null element has that element's text as its text. */
  lemma SingletonArrayString(e: Json)
    requires e != JNull
    ensures JsString(JArr([e])) == JsString(e)
  {
    var parts := seq(1, k requires 0 <= k < 1 => if [e][k] == JNull then "" else JsString([e][k]));
    assert parts == [JsString(e)];
  }

  /** `Number` reads back every integer JavaScript writes in decimal. */
  lemma NumberOfIntToString(n: int)
    ensures StringToNumber(Text.IntToString(n)) == Some(n)
  {
    if n >= 0 {
      var d := Text.NatToString(n);
      assert Text.IntToString(n) == d;
      Text.NatToStringRoundTrip(n);
      NumberOfDigits(d);
    } else {
      var m: nat := -n;
      var d := Text.NatToString(m);
      assert Text.IntToString(n) == "-" + d;
      Text.NatToStringRoundTrip(m);
      NumberOfNegative(d);
    }
  }

  /** A non-empty run of digits is its decimal value. */
  lemma NumberOfDigits(d: string)
    requires |d| > 0 && Text.AllDigits(d)
    ensures StringToNumber(d) == Some(Text.DecimalValue(d))
  {
    TrimKeeps(d);
  }

  /** A minus sign before a non-empty run of digits negates its value. */
  lemma NumberOfNegative(d: string)
    requires |d| > 0 && Text.AllDigits(d)
    ensures StringToNumber("-" + d) == Some(0 - Text.DecimalValue(d))
  {
    var t := "-" + d;
    assert t[0] == '-' && t[1..] == d;
    TrimKeeps(t);
    assert !Text.AllDigits(t) by { assert !Text.IsDigit(t[0]); }
    NumberOfMinus(t);
  }

  /** Untrimmable text made of a minus sign and digits reads as the negated digits. */
  lemma NumberOfMinus(t: string)
    requires Text.Trim(t) == t && |t| > 1 && t[0] == '-' && !Text.AllDigits(t) && Text.AllDigits(t[1..])
    ensures StringToNumber(t) == Some(0 - Text.DecimalValue(t[1..]))
  {
  }

  /** Text that starts with a sign or a digit and ends with a digit has nothing to trim. */
  lemma TrimKeeps(t: string)
    requires |t| > 0 && (t[0] == '-' || Text.IsDigit(t[0])) && Text.IsDigit(t[|t| - 1])
    ensures Text.Trim(t) == t
  {
  }

  /** `Number(j) || d`: NaN and zero both give the default. */
  function NumberOr(j: Json, d: int): (r: int)
    ensures r == d <== (ToNumber(j).None? || ToNumber(j) == Some(0))
    ensures ToNumber(j).Some? && ToNumber(j).value != 0 ==> r == ToNumber(j).value
  {
    match ToNumber(j)
    case Some(n) => if n != 0 then n else d
    case None => d
  }

  /** `Math.min(Math.max(v, lo), hi)`. */
  function Clamp(v: int, lo: int, hi: int): (r: int)
    requires lo <= hi
    ensures lo <= r <= hi
    ensures lo <= v <= hi ==> r == v
    ensures v < lo ==> r == lo
    ensures v > hi ==> r == hi
  {
    if v < lo then lo else if v > hi then hi else v
  }

  // ---------------------------------------------------------------------------
  // The lesson
  // ---------------------------------------------------------------------------

  /** One drawing action. `width` and `points` are absent only in the default lesson. */
  datatype DrawStep = DrawStep(
    kind: string, x: int, y: int, text: Json, color: Json, thickness: int,
    width: Option<int>, points: Option<seq<Json>>, delay: int, duration: int)

  datatype LessonStep = LessonStep(content: string, drawSteps: seq<DrawStep>)

  datatype VocabularyTerm = VocabularyTerm(term: string, definition: string)

  /** `topic`, `gradeLevel` and `subject` keep whatever truthy value the reply gave. */
  datatype Lesson = Lesson(
    topic: Json, gradeLevel: Json, subject: Json,
    learningObjectives: seq<string>, vocabulary: seq<VocabularyTerm>, steps: seq<LessonStep>)

  const Kinds: seq<string> := ["text", "line", "circle"]

  const Black := JStr("#000000")

  const DefaultSteps: seq<LessonStep> := [
    LessonStep("Loading lesson content...", [
      DrawStep("text", 100, 100, JStr("Preparing lesson..."), Black, 2, None, None, 0, 1000)])]

  /** `DEFAULT_LESSON`. */
  const DefaultLesson := Lesson(JStr(""), JStr(""), JStr(""), [], [], DefaultSteps)

  predicate IsHexDigit(c: char) {
    '0' <= c <= '9' || 'a' <= c <= 'f' || 'A' <= c <= 'F'
  }

  /** `/^#[0-9A-F]{6}$/i`: a '#' and exactly six hexadecimal digits of either case. */
  predicate IsHexColor(s: string) {
    |s| == 7 && s[0] == '#' && forall k :: 1 <= k < 7 ==> IsHexDigit(s[k])
  }

  /**
   * What the renderer may rely on: a known kind, a colour whose string form
   * is a hex colour (the colour itself may be an array, see `ColorOf`), and
   * delay and duration in range.
   */
  predicate WellFormedDrawStep(d: DrawStep) {
    d.kind in Kinds && IsHexColor(JsString(d.color)) && 0 <= d.delay <= 2000 && 100 <= d.duration <= 3000
  }

  /** At least one step, and every draw step well formed. */
  predicate WellFormedLesson(l: Lesson) {
    |l.steps| >= 1
    && forall i, k :: 0 <= i < |l.steps| && 0 <= k < |l.steps[i].drawSteps| ==>
         WellFormedDrawStep(l.steps[i].drawSteps[k])
  }

  // ---------------------------------------------------------------------------
  // validateAndProcessLesson
  // ---------------------------------------------------------------------------

  /** A learning objective: a string entry, trimmed; anything else is dropped. */
  function ObjectiveOf(j: Json): (r: Option<string>)
    ensures r.Some? <==> j.JStr?
    ensures r.Some? ==> r.value == Text.Trim(j.s)
  {
    if j.JStr? then Some(Text.Trim(j.s)) else None
  }

  /** A vocabulary entry: kept only when both `term` and `definition` are strings, each trimmed. */
  function TermOf(j: Json): (r: Option<VocabularyTerm>)
    ensures r.Some? <==> Get(j, "term").JStr? && Get(j, "definition").JStr?
    ensures r.Some? ==> r.value == VocabularyTerm(Text.Trim(Get(j, "term").s), Text.Trim(Get(j, "definition").s))
  {
    if Truthy(j) && Get(j, "term").JStr? && Get(j, "definition").JStr? then
      Some(VocabularyTerm(Text.Trim(Get(j, "term").s), Text.Trim(Get(j, "definition").s)))
    else None
  }

  /** The `type` test: one of the three kinds, or 'text'. */
  function KindOf(t: Json): (k: string)
    ensures k in Kinds
    ensures t !in [JStr("line"), JStr("circle")] ==> k == "text"
    ensures t.JStr? && t.s in Kinds ==> k == t.s
  {
    if t.JStr? && t.s in Kinds then t.s else "text"
  }

  /**
   * The colour test: `RegExp.prototype.test` converts the colour to a string
   * first, and the colour itself is kept when that string is a hex colour;
   * otherwise black. A colour for which the conversion throws never gets
   * here: `DrawStepOf` throws first.
   */
  function ColorOf(c: Json): (r: Json)
    ensures IsHexColor(JsString(r))
    ensures IsHexColor(JsString(c)) ==> r == c
    ensures !IsHexColor(JsString(c)) ==> r == Black
  {
    if IsHexColor(JsString(c)) then c else Black
  }

  /**
   * Only a string or an array can pass the colour test: `null`, booleans,
   * numbers and objects never spell '#' and six hex digits. An array holding
   * one hex string passes and is kept as an array.
   */
  lemma ColorPassesOnlyStringsAndArrays(c: Json, s: string)
    ensures IsHexColor(JsString(c)) ==> c.JStr? || c.JArr?
    ensures IsHexColor(s) ==> ColorOf(JStr(s)) == JStr(s) && ColorOf(JArr([JStr(s)])) == JArr([JStr(s)])
  {
    if c.JNum? {
      var d := Text.NatToString(if c.n < 0 then -c.n else c.n);
      assert Text.IsDigit(d[0]);
      if c.n < 0 { assert JsString(c)[0] == '-'; } else { assert JsString(c)[0] == d[0]; }
    }
    SingletonArrayString(JStr(s));
  }

  /** One of the fields the map converts (`x`, `y`, `thickness`, `width`, `delay`, `duration` by `Number`, `color` by the colour test) throws. */
  predicate CoercionThrows(j: Json) {
    Throws(Get(j, "x")) || Throws(Get(j, "y")) || Throws(Get(j, "color")) || Throws(Get(j, "thickness"))
    || Throws(Get(j, "width")) || Throws(Get(j, "delay")) || Throws(Get(j, "duration"))
  }

  /**
   * A draw step: dropped (`Success(None)`) when its `type` is falsy, a
   * TypeError (`Failure`) when it passes the filter but one of its converted
   * fields throws, and otherwise kept with every field coerced to a usable value.
   */
  function DrawStepOf(j: Json): (r: Result<Option<DrawStep>>)
    ensures r == Success(None) <==> !Truthy(Get(j, "type"))
    ensures r.Failure? <==> Truthy(Get(j, "type")) && CoercionThrows(j)
    ensures r.Success? && r.value.Some? ==> WellFormedDrawStep(r.value.value)
    ensures r.Success? && r.value.Some? ==> (r.value.value.kind == "text" <== Get(j, "type") !in [JStr("line"), JStr("circle")])
    ensures r.Success? && r.value.Some? ==> (r.value.value.color == Black <== !IsHexColor(JsString(Get(j, "color"))))
    ensures r.Success? && r.value.Some? && IsHexColor(JsString(Get(j, "color"))) ==> r.value.value.color == Get(j, "color")
  {
    var t := Get(j, "type");
    if !(Truthy(j) && Truthy(t)) then Success(None)
    else if CoercionThrows(j) then Failure(TypeError)
    else
      var color := Get(j, "color");
      var points := Get(j, "points");
      Success(Some(DrawStep(
        KindOf(t),
        NumberOr(Get(j, "x"), 0),
        NumberOr(Get(j, "y"), 0),
        Or(Get(j, "text"), JStr("")),
        ColorOf(color),
        NumberOr(Get(j, "thickness"), 2),
        Some(NumberOr(Get(j, "width"), 50)),
        Some(if points.JArr? then points.items else []),
        Clamp(NumberOr(Get(j, "delay"), 500), 0, 2000),
        Clamp(NumberOr(Get(j, "duration"), 1000), 100, 3000))))
  }

  /** The draw steps of a lesson step, when they are an array: filtered and converted, or the first TypeError. */
  function DrawStepsOf(ds: Json): Result<seq<DrawStep>> {
    if ds.JArr? then Seqs.TryFilterMap(ds.items, DrawStepOf) else Success([])
  }

  /** Some draw step of the list passes the filter and throws in the map. */
  predicate SomeDrawStepThrows(ds: Json) {
    ds.JArr? && exists k :: 0 <= k < |ds.items| && Truthy(Get(ds.items[k], "type")) && CoercionThrows(ds.items[k])
  }

  /**
   * A lesson step: dropped when its `content` is not a string, a TypeError
   * when one of its draw steps throws, and otherwise kept with its content
   * trimmed and its draw steps filtered when they are an array.
   */
  function StepOf(j: Json): (r: Result<Option<LessonStep>>)
    ensures r == Success(None) <==> !Get(j, "content").JStr?
    ensures r.Failure? <==> StepThrows(j)
    ensures r.Success? && r.value.Some? ==> r.value.value.content == Text.Trim(Get(j, "content").s)
    ensures r.Success? && r.value.Some? ==> forall k :: 0 <= k < |r.value.value.drawSteps| ==> WellFormedDrawStep(r.value.value.drawSteps[k])
  {
    if !(Truthy(j) && Get(j, "content").JStr?) then Success(None)
    else
      var ds := Get(j, "drawSteps");
      DrawStepsWellFormed(ds);
      match DrawStepsOf(ds)
      case Failure(e) => Failure(e)
      case Success(drawSteps) => Success(Some(LessonStep(Text.Trim(Get(j, "content").s), drawSteps)))
  }

  /** The draw steps of a lesson step throw exactly when one of them does, and every one that survives is well formed. */
  lemma DrawStepsWellFormed(ds: Json)
    ensures DrawStepsOf(ds).Failure? <==> SomeDrawStepThrows(ds)
    ensures DrawStepsOf(ds).Success? ==> forall k :: 0 <= k < |DrawStepsOf(ds).value| ==> WellFormedDrawStep(DrawStepsOf(ds).value[k])
  {
    if ds.JArr? && DrawStepsOf(ds).Success? {
      forall k | 0 <= k < |DrawStepsOf(ds).value|
        ensures WellFormedDrawStep(DrawStepsOf(ds).value[k])
      {
        var d := DrawStepsOf(ds).value[k];
        Seqs.TryFilterMapMembership(ds.items, DrawStepOf, d);
      }
    }
  }

  /** `Array.isArray(a) ? a.filter(...).map(...) : []`. */
  function ListOf<U>(a: Json, f: Json -> Option<U>): seq<U> {
    if a.JArr? then Seqs.FilterMap(a.items, f) else []
  }

  /** The lesson steps, when they are an array: filtered and converted, or the first TypeError. */
  function StepsOf(st: Json): Result<seq<LessonStep>> {
    if st.JArr? then Seqs.TryFilterMap(st.items, StepOf) else Success([])
  }

  /**
   * `validateAndProcessLesson` throws: a `null` lesson on its first property
   * access, or a lesson step with a string `content` holding a draw step
   * whose conversion throws.
   */
  predicate ValidationThrows(lesson: Json) {
    var st := Get(lesson, "steps");
    lesson == JNull || (st.JArr? && exists k :: 0 <= k < |st.items| && StepThrows(st.items[k]))
  }

  /** A lesson step passes the filter and one of its draw steps throws. */
  predicate StepThrows(j: Json) {
    Get(j, "content").JStr? && SomeDrawStepThrows(Get(j, "drawSteps"))
  }

  /**
   * `validateAndProcessLesson`: `None` stands for the TypeError it throws
   * (`ValidationThrows`); any other value yields a lesson.
   */
  function Validate(lesson: Json): (r: Option<Lesson>)
    ensures r.None? <==> ValidationThrows(lesson)
    ensures r.Some? ==> WellFormedLesson(r.value)
  {
    if lesson == JNull then None
    else
      StepsWellFormed(Get(lesson, "steps"));
      match StepsOf(Get(lesson, "steps"))
      case Failure(_) => None
      case Success(steps) =>
        Some(Lesson(
          Or(Get(lesson, "topic"), JStr("")),
          Or(Get(lesson, "gradeLevel"), JStr("")),
          Or(Get(lesson, "subject"), JStr("")),
          ListOf(Get(lesson, "learningObjectives"), ObjectiveOf),
          ListOf(Get(lesson, "vocabulary"), TermOf),
          if |steps| == 0 then DefaultSteps else steps))
  }

  /** The steps throw exactly when a kept step holds a throwing draw step, and every draw step of every surviving step is well formed. */
  lemma StepsWellFormed(st: Json)
    ensures StepsOf(st).Failure? <==> st.JArr? && exists k :: 0 <= k < |st.items| && StepThrows(st.items[k])
    ensures StepsOf(st).Success? ==>
      forall i, k :: 0 <= i < |StepsOf(st).value| && 0 <= k < |StepsOf(st).value[i].drawSteps| ==>
        WellFormedDrawStep(StepsOf(st).value[i].drawSteps[k])
  {
    if st.JArr? && StepsOf(st).Success? {
      forall i | 0 <= i < |StepsOf(st).value|
        ensures forall k :: 0 <= k < |StepsOf(st).value[i].drawSteps| ==>
          WellFormedDrawStep(StepsOf(st).value[i].drawSteps[k])
      {
        var step := StepsOf(st).value[i];
        Seqs.TryFilterMapMembership(st.items, StepOf, step);
      }
    }
  }

  // ---------------------------------------------------------------------------
  // Properties of the validator
  // ---------------------------------------------------------------------------

  /** The objectives are the string entries of the list, each trimmed, and nothing else. */
  lemma ObjectivesAreTrimmedStrings(items: seq<Json>, o: string)
    ensures o in ListOf(JArr(items), ObjectiveOf) <==> exists s :: JStr(s) in items && Text.Trim(s) == o
  {
    Seqs.FilterMapMembership(items, ObjectiveOf, o);
    if exists s :: JStr(s) in items && Text.Trim(s) == o {
      var s :| JStr(s) in items && Text.Trim(s) == o;
      assert ObjectiveOf(JStr(s)) == Some(o);
    }
  }

  /** The objectives of two lists in a row are those of the first followed by those of the second: order is kept. */
  lemma ObjectivesKeepOrder(a: seq<Json>, b: seq<Json>)
    ensures ListOf(JArr(a + b), ObjectiveOf) == ListOf(JArr(a), ObjectiveOf) + ListOf(JArr(b), ObjectiveOf)
  {
    Seqs.FilterMapAppend(a, b, ObjectiveOf);
  }

  /** A vocabulary entry survives exactly when both its fields are strings, and it is trimmed. */
  lemma VocabularyEntries(items: seq<Json>, v: VocabularyTerm)
    ensures v in ListOf(JArr(items), TermOf) <==>
      exists j :: j in items && Get(j, "term").JStr? && Get(j, "definition").JStr?
        && v == VocabularyTerm(Text.Trim(Get(j, "term").s), Text.Trim(Get(j, "definition").s))
  {
    Seqs.FilterMapMembership(items, TermOf, v);
  }

  /** A missing, zero or non-numeric delay becomes 500 and duration 1000; any other number is clamped to 0..2000 and 100..3000. */
  lemma TimingDefaults(j: Json)
    requires Truthy(Get(j, "type"))
    ensures DrawStepOf(j).Success? ==>
      var d, delay, duration := DrawStepOf(j).value.value, ToNumber(Get(j, "delay")), ToNumber(Get(j, "duration"));
      && (delay in {None, Some(0)} ==> d.delay == 500)
      && (duration in {None, Some(0)} ==> d.duration == 1000)
      && (delay.Some? && delay.value != 0 ==> d.delay == Clamp(delay.value, 0, 2000))
      && (duration.Some? && duration.value != 0 ==> d.duration == Clamp(duration.value, 100, 3000))
  {
  }

  /** A delay or duration given as a one-number array is that number, clamped: `[5000]` becomes 2000. */
  lemma TimingFromArray(j: Json, delay: int, duration: int)
    requires Truthy(Get(j, "type"))
    requires Get(j, "delay") == JArr([JNum(delay)]) && Get(j, "duration") == JArr([JNum(duration)])
    ensures DrawStepOf(j).Success? && delay != 0 ==> DrawStepOf(j).value.value.delay == Clamp(delay, 0, 2000)
    ensures DrawStepOf(j).Success? && duration != 0 ==> DrawStepOf(j).value.value.duration == Clamp(duration, 100, 3000)
  {
    assert ToNumber(Get(j, "delay")) == Some(delay);
    assert ToNumber(Get(j, "duration")) == Some(duration);
  }

  /** When no step survives, the default steps are used; otherwise exactly the surviving steps. */
  lemma StepsFallBack(lesson: Json)
    requires lesson != JNull
    ensures Validate(lesson).Some? ==> var steps := StepsOf(Get(lesson, "steps")).value;
      Validate(lesson).value.steps == if steps == [] then DefaultSteps else steps
    ensures Get(lesson, "steps").JArr? && (forall j :: j in Get(lesson, "steps").items ==> !Get(j, "content").JStr?) ==>
      Validate(lesson).Some? && Validate(lesson).value.steps == DefaultSteps
  {
    var st := Get(lesson, "steps");
    if st.JArr? && forall j :: j in st.items ==> !Get(j, "content").JStr? {
      StepsWellFormed(st);
      if StepsOf(st).value != [] {
        var s0 := StepsOf(st).value[0];
        Seqs.TryFilterMapMembership(st.items, StepOf, s0);
      }
    }
  }

  /** A value that is neither `null` nor an object reads every property as `undefined`. */
  lemma NonObjectLesson(lesson: Json)
    requires lesson != JNull && !lesson.JObj?
    ensures Validate(lesson) == Some(Lesson(JStr(""), JStr(""), JStr(""), [], [], DefaultSteps))
  {
  }

  // ---------------------------------------------------------------------------
  // Cleaning the reply: text.replace(/```json\n?|\n?```/g, '').trim()
  // ---------------------------------------------------------------------------

  /** Three backticks start at offset `i` of `s`. */
  predicate TicksAt(s: string, i: nat) {
    i + 3 <= |s| && s[i] == '`' && s[i + 1] == '`' && s[i + 2] == '`'
  }

  /** The word "json" starts at offset `i` of `s`. */
  predicate JsonAt(s: string, i: nat) {
    i + 4 <= |s| && s[i] == 'j' && s[i + 1] == 's' && s[i + 2] == 'o' && s[i + 3] == 'n'
  }

  /**
   * The length of the match of `/```json\n?|\n?```/` at the start of `s`, or
   * 0: the first alternative ("```json", then an optional newline) is tried
   * before the second (an optional newline, then "```").
   */
  function FenceAt(s: string): (n: nat)
    ensures n in {0, 3, 4, 7, 8} && n <= |s|
    ensures n > 0 ==> s[0] == '`' || (s[0] == '\n' && s[1] == '`')
  {
    if TicksAt(s, 0) && JsonAt(s, 3) then (if 7 < |s| && s[7] == '\n' then 8 else 7)
    else if |s| > 0 && s[0] == '\n' && TicksAt(s, 1) then 4
    else if TicksAt(s, 0) then 3
    else 0
  }

  /** The global replace with '': scanning left to right, every match is dropped and every other character kept. */
  function StripFences(s: string): (r: string)
    ensures |r| <= |s|
    decreases |s|
  {
    if s == [] then []
    else if FenceAt(s) > 0 then StripFences(s[FenceAt(s)..])
    else [s[0]] + StripFences(s[1..])
  }

  predicate NoBackticks(s: string) {
    forall k :: 0 <= k < |s| ==> s[k] != '`'
  }

  /** No match starts at backtick-free text followed by text that does not start with a backtick. */
  lemma NoFenceAtJoin(x: string, t: string)
    requires NoBackticks(x) && |x| > 0
    requires t == [] || t[0] != '`'
    ensures FenceAt(x + t) == 0
  {
    var s := x + t;
    assert s[0] == x[0];
    if |s| > 1 {
      if |x| > 1 { assert s[1] == x[1]; } else { assert s[1] == t[0]; }
    }
  }

  /** Where no match starts, the first character is copied. */
  lemma StripFencesCopiesHead(x: string, t: string)
    requires |x| > 0 && FenceAt(x + t) == 0
    ensures StripFences(x + t) == [x[0]] + StripFences(x[1..] + t)
  {
    var s := x + t;
    assert s[0] == x[0] && s[1..] == x[1..] + t;
  }

  /** Text without backticks passes through unchanged, when what follows does not start with one. */
  lemma {:induction false} StripFencesPassesThrough(x: string, t: string)
    requires NoBackticks(x)
    requires t == [] || t[0] != '`'
    ensures StripFences(x + t) == x + StripFences(t)
    decreases |x|
  {
    if |x| > 0 {
      var r := StripFences(t);
      calc {
        StripFences(x + t);
      == { NoFenceAtJoin(x, t); StripFencesCopiesHead(x, t); }
        [x[0]] + StripFences(x[1..] + t);
      == { StripFencesPassesThrough(x[1..], t); }
        [x[0]] + (x[1..] + r);
      == { Seqs.Assoc([x[0]], x[1..], r); }
        [x[0]] + x[1..] + r;
      == { assert [x[0]] + x[1..] == x; }
        x + r;
      }
    } else {
      assert x + t == t;
    }
  }

  /** A reply fenced as a json code block gives back the text inside the fence. */
  lemma StripFencedReply(x: string)
    requires NoBackticks(x)
    ensures StripFences("```json\n" + x + "\n```") == x
  {
    var s := "```json\n" + x + "\n```";
    assert s[..8] == "```json\n";
    assert FenceAt(s) == 8;
    assert s[8..] == x + "\n```";
    StripFencesPassesThrough(x, "\n```");
    assert StripFences("\n```") == [] by {
      assert FenceAt("\n```") == 4;
      assert "\n```"[4..] == [];
    }
  }

  /** A reply without any backtick is left as it is. */
  lemma StripUnfencedReply(x: string)
    requires NoBackticks(x)
    ensures StripFences(x) == x
  {
    StripFencesPassesThrough(x, []);
    assert x + [] == x;
  }

  /** The opening fence directly after a newline loses only "\n```": the word "json" stays. */
  lemma StripFencesAfterNewline()
    ensures StripFences("\n```json") == "json"
  {
    var s := "\n```json";
    assert s[0] == '\n' && TicksAt(s, 1);
    assert FenceAt(s) == 4;
    assert s[4..] == "json";
    StripUnfencedReply("json");
  }

  // ---------------------------------------------------------------------------
  // generateLesson
  // ---------------------------------------------------------------------------

  /** `{...DEFAULT_LESSON, topic, gradeLevel, subject}`. */
  function Fallback(subject: string, topic: string, gradeLevel: string): (r: Lesson)
    ensures WellFormedLesson(r)
    ensures r.topic == JStr(topic) && r.gradeLevel == JStr(gradeLevel) && r.subject == JStr(subject)
    ensures r.steps == DefaultSteps
  {
    DefaultLesson.(topic := JStr(topic), gradeLevel := JStr(gradeLevel), subject := JStr(subject))
  }

  /**
   * `generateLesson`, given the model's reply (`None` when the call fails) and
   * the parser: the cleaned reply is parsed and validated, and every failure
   * gives the fallback lesson instead of an exception.
   */
  function GenerateLesson(subject: string, topic: string, gradeLevel: string,
                          reply: Option<string>, parse: string -> Option<Json>): (r: Lesson)
    ensures WellFormedLesson(r)
    ensures reply.None? ==> r == Fallback(subject, topic, gradeLevel)
    ensures reply.Some? && parse(Text.Trim(StripFences(reply.value))).None? ==> r == Fallback(subject, topic, gradeLevel)
    ensures reply.Some? && parse(Text.Trim(StripFences(reply.value))).Some? && ValidationThrows(parse(Text.Trim(StripFences(reply.value))).value) ==>
      r == Fallback(subject, topic, gradeLevel)
    ensures reply.Some? && parse(Text.Trim(StripFences(reply.value))).Some? && !ValidationThrows(parse(Text.Trim(StripFences(reply.value))).value) ==>
      r == Validate(parse(Text.Trim(StripFences(reply.value))).value).value
  {
    match reply
    case None => Fallback(subject, topic, gradeLevel)
    case Some(text) =>
      match parse(Text.Trim(StripFences(text)))
      case None => Fallback(subject, topic, gradeLevel)
      case Some(lesson) =>
        match Validate(lesson)
        case None => Fallback(subject, topic, gradeLevel)
        case Some(l) => l
  }

  /** A fenced reply whose inner text parses to a lesson gives that lesson validated, or the fallback when validating it throws. */
  lemma FencedReplyIsValidated(subject: string, topic: string, gradeLevel: string,
                               x: string, parse: string -> Option<Json>, lesson: Json)
    requires NoBackticks(x)
    requires parse(Text.Trim(x)) == Some(lesson)
    ensures GenerateLesson(subject, topic, gradeLevel, Some("```json\n" + x + "\n```"), parse) ==
      if ValidationThrows(lesson) then Fallback(subject, topic, gradeLevel) else Validate(lesson).value
  {
    StripFencedReply(x);
  }

  /** A reply with one step drawing a line whose colour is `{"toString": 1}`, or `[{"toString": 1}]` when `wrap` holds. */
  function ToStringColourLesson(wrap: bool): Json {
    var bad := JObj(map["toString" := JNum(1)]);
    var d := JObj(map["type" := JStr("line"), "color" := if wrap then JArr([bad]) else bad]);
    JObj(map["steps" := JArr([JObj(map["content" := JStr("Draw"), "drawSteps" := JArr([d])])])])
  }

  /**
   * A colour that is an object with its own `toString` key, or an array
   * holding one, makes the colour test throw, so validating the lesson throws.
   */
  lemma ToStringColourThrows(wrap: bool)
    ensures ValidationThrows(ToStringColourLesson(wrap))
    ensures Validate(ToStringColourLesson(wrap)).None?
  {
    var bad := JObj(map["toString" := JNum(1)]);
    var color := if wrap then JArr([bad]) else bad;
    var d := JObj(map["type" := JStr("line"), "color" := color]);
    var step := JObj(map["content" := JStr("Draw"), "drawSteps" := JArr([d])]);
    var lesson := JObj(map["steps" := JArr([step])]);
    assert lesson == ToStringColourLesson(wrap);
    assert Throws(bad);
    assert Throws(color) by { if wrap { assert color.items[0] == bad; } }
    assert Get(d, "color") == color;
    assert StepThrows(step) by { assert Get(step, "drawSteps").items[0] == d; }
    assert Get(lesson, "steps").items[0] == step;
  }

  /** Such a reply gives the fallback lesson. */
  lemma ToStringKeyFallsBack(subject: string, topic: string, gradeLevel: string,
                             reply: string, parse: string -> Option<Json>, wrap: bool)
    requires parse(Text.Trim(StripFences(reply))) == Some(ToStringColourLesson(wrap))
    ensures GenerateLesson(subject, topic, gradeLevel, Some(reply), parse) == Fallback(subject, topic, gradeLevel)
  {
    ToStringColourThrows(wrap);
  }
}
