/**
 What the substring scan over serialised workflow steps finds, in terms of the
 steps themselves: a word occurs in the text exactly when some key or text of
 the steps, quoted and escaped, contains it.
 */
module StepScan {
  import opened Common
  import opened Capabilities

  /** Decoded JSON. An object lists its fields in the order they are written out. */
  datatype Json =
    | Null
    | Bool(value: bool)
    | Number(text: string)
    | Text(s: string)
    | List(items: seq<Json>)
    | Object(fields: seq<Field>)

  datatype Field = Field(key: string, value: Json)

  /** A quoted string; lower-case letters are written as they are, the rest may be escaped in any way. */
  function Quote(s: string, escape: char -> string): (text: string) {
    Quoted(Escape(s, escape))
  }

  function Escape(s: string, escape: char -> string): (text: string) {
    if s == "" then "" else
    (if 'a' <= s[0] <= 'z' then [s[0]] else escape(s[0])) + Escape(s[1..], escape)
  }

  function Marshal(j: Json, escape: char -> string): (text: string)
    decreases j, 0
  {
    match j
    case Null => "null"
    case Bool(b) => if b then "true" else "false"
    case Number(text) => text
    case Text(s) => Quote(s, escape)
    case List(items) => "[" + MarshalItems(items, escape) + "]"
    case Object(fields) => "{" + MarshalFields(fields, escape) + "}"
  }

  function MarshalItems(items: seq<Json>, escape: char -> string): (text: string)
    decreases items, 1
  {
    if items == [] then "" else
    Marshal(items[0], escape) + (if |items| == 1 then "" else "," + MarshalItems(items[1..], escape))
  }

  function MarshalFields(fields: seq<Field>, escape: char -> string): (text: string)
    decreases fields, 1
  {
    if fields == [] then "" else
    Quote(fields[0].key, escape) + ":" + Marshal(fields[0].value, escape)
      + (if |fields| == 1 then "" else "," + MarshalFields(fields[1..], escape))
  }

  // --------------------------------------------------------------- one search

  /** One search: for a quoted word, in the text as it is or lower-cased. */
  datatype Search = Search(part: string, lower: bool, fold: char -> char, escape: char -> string) {
    function View(text: string): (seen: string) { if lower then Lower(text, fold) else text }

    predicate Hits(text: string) { Contains(View(text), part) }

    /** The search is for something in quotes that no punctuation of JSON is part of. */
    predicate ForQuoted() {
      && part != "" && (part[0] == '"' || part[0] == '\'')
      && forall c :: Separator(c) ==> c !in part
    }

    /** The word occurs in a number, text or key of the value. */
    predicate Mentions(j: Json)
      decreases j, 0
    {
      match j
      case Null => false
      case Bool(_) => false
      case Number(text) => Hits(text)
      case Text(s) => Hits(Quote(s, escape))
      case List(items) => MentionsItem(items)
      case Object(fields) => MentionsField(fields)
    }

    predicate MentionsItem(items: seq<Json>)
      decreases items, 1
    {
      items != [] && (Mentions(items[0]) || MentionsItem(items[1..]))
    }

    predicate MentionsField(fields: seq<Field>)
      decreases fields, 1
    {
      fields != [] && (Hits(Quote(fields[0].key, escape)) || Mentions(fields[0].value) || MentionsField(fields[1..]))
    }
  }

  predicate Separator(c: char) { c in {'[', ']', '{', '}', ',', ':'} }

  lemma ContainsInMiddle(before: string, text: string, after: string, part: string)
    requires Contains(text, part)
    ensures Contains(before + text + after, part)
  {
    var i: nat :| i <= |text| && OccursAt(text, part, i);
    var all := before + text + after;
    assert all[|before| + i..|before| + i + |part|] == text[i..i + |part|];
    assert OccursAt(all, part, |before| + i);
  }

  /** A character outside the part cuts the text in two. */
  lemma OutsiderCuts(a: string, c: char, b: string, part: string)
    requires part != "" && c !in part
    ensures Contains(a + [c] + b, part) <==> Contains(a, part) || Contains(b, part)
  {
    var all := a + [c] + b;
    if Contains(a, part) {
      ContainsInMiddle("", a, [c] + b, part);
      assert "" + a + ([c] + b) == all;
    }
    if Contains(b, part) {
      ContainsInMiddle(a + [c], b, "", part);
      assert a + [c] + b + "" == all;
    }
    if Contains(all, part) {
      var i: nat :| i <= |all| && OccursAt(all, part, i);
      EitherSide(a, c, b, part, i);
    }
  }

  lemma EitherSide(a: string, c: char, b: string, part: string, i: nat)
    requires part != "" && c !in part && OccursAt(a + [c] + b, part, i)
    ensures Contains(a, part) || Contains(b, part)
  {
    var all := a + [c] + b;
    if i + |part| <= |a| {
      assert a[i..i + |part|] == all[i..i + |part|];
      assert OccursAt(a, part, i);
    } else if i > |a| {
      assert b[i - |a| - 1..i - |a| - 1 + |part|] == all[i..i + |part|];
      assert OccursAt(b, part, i - |a| - 1);
    } else {
      AcrossTheCut(a, c, b, part, i);
    }
  }

  /** What occurs across a character contains it. */
  lemma AcrossTheCut(a: string, c: char, b: string, part: string, i: nat)
    requires i <= |a| < i + |part| && OccursAt(a + [c] + b, part, i)
    ensures c in part
  {
    var all := a + [c] + b;
    assert part[|a| - i] == all[i..i + |part|][|a| - i] == all[|a|];
  }

  /** So does a separator, for every search for something quoted. */
  lemma SeparatorCuts(s: Search, a: string, c: char, b: string)
    requires s.ForQuoted() && Separator(c)
    ensures s.Hits(a + [c] + b) <==> s.Hits(a) || s.Hits(b)
  {
    assert s.View(a + [c] + b) == s.View(a) + [c] + s.View(b);
    OutsiderCuts(s.View(a), c, s.View(b), s.part);
  }

  lemma NothingInEmpty(s: Search)
    requires s.ForQuoted()
    ensures !s.Hits("")
  {}

  lemma Enclosed(s: Search, open: char, text: string, close: char)
    requires s.ForQuoted() && Separator(open) && Separator(close)
    ensures s.Hits([open] + text + [close]) <==> s.Hits(text)
  {
    NothingInEmpty(s);
    SeparatorCuts(s, [open] + text, close, "");
    SeparatorCuts(s, "", open, text);
    assert [open] + text + [close] + "" == [open] + text + [close];
    assert "" + [open] + text == [open] + text;
  }

  lemma NotInWords(s: Search, text: string)
    requires s.ForQuoted() && text in {"null", "true", "false"}
    ensures !s.Hits(text)
  {
    var q := s.part[0];
    assert q in s.part && q !in s.View(text);
    if s.Hits(text) {
      CharsOfPartOccur(s.View(text), s.part, q);
    }
  }

  lemma CharsOfPartOccur(text: string, part: string, c: char)
    requires c in part && Contains(text, part)
    ensures c in text
  {
    var i: nat :| i <= |text| && OccursAt(text, part, i);
    var k :| 0 <= k < |part| && part[k] == c;
    assert text[i..i + |part|][k] == text[i + k];
  }

  /** The text of a value holds the word exactly when the value mentions it. */
  lemma {:induction false} MarshalHits(s: Search, j: Json)
    requires s.ForQuoted()
    ensures s.Hits(Marshal(j, s.escape)) <==> s.Mentions(j)
    decreases j, 0
  {
    match j
    case Null => NotInWords(s, "null");
    case Bool(b) => NotInWords(s, if b then "true" else "false");
    case Number(_) =>
    case Text(_) =>
    case List(items) =>
      ItemsHit(s, items);
      Enclosed(s, '[', MarshalItems(items, s.escape), ']');
    case Object(fields) =>
      FieldsHit(s, fields);
      Enclosed(s, '{', MarshalFields(fields, s.escape), '}');
  }

  lemma {:induction false} ItemsHit(s: Search, items: seq<Json>)
    requires s.ForQuoted()
    ensures s.Hits(MarshalItems(items, s.escape)) <==> s.MentionsItem(items)
    decreases items, 1
  {
    if items == [] {
      NothingInEmpty(s);
    } else {
      MarshalHits(s, items[0]);
      ItemsHit(s, items[1..]);
      JoinedByComma(s, Marshal(items[0], s.escape), |items| == 1, MarshalItems(items[1..], s.escape));
    }
  }

  lemma {:induction false} FieldsHit(s: Search, fields: seq<Field>)
    requires s.ForQuoted()
    ensures s.Hits(MarshalFields(fields, s.escape)) <==> s.MentionsField(fields)
    decreases fields, 1
  {
    if fields == [] {
      NothingInEmpty(s);
    } else {
      var key, value := Quote(fields[0].key, s.escape), Marshal(fields[0].value, s.escape);
      MarshalHits(s, fields[0].value);
      FieldsHit(s, fields[1..]);
      SeparatorCuts(s, key, ':', value);
      JoinedByComma(s, key + ":" + value, |fields| == 1, MarshalFields(fields[1..], s.escape));
    }
  }

  lemma JoinedByComma(s: Search, first: string, alone: bool, rest: string)
    requires s.ForQuoted() && (alone ==> !s.Hits(rest))
    ensures s.Hits(first + (if alone then "" else "," + rest)) <==> s.Hits(first) || s.Hits(rest)
  {
    if alone {
      assert first + "" == first;
    } else {
      SeparatorCuts(s, first, ',', rest);
      Regroup(first, ",", rest);
    }
  }

  lemma Regroup(a: string, b: string, c: string)
    ensures a + (b + c) == a + b + c
  {}

  // ------------------------------------------------------------ whole words

  predicate AllLowerCase(s: string) {
    forall i :: 0 <= i < |s| ==> 'a' <= s[i] <= 'z'
  }

  lemma {:induction false} LowerCaseNeedsNoEscape(s: string, escape: char -> string)
    requires AllLowerCase(s)
    ensures Escape(s, escape) == s
  {
    if s == "" {
    } else {
      LowerCaseNeedsNoEscape(s[1..], escape);
    }
  }

  lemma LowerKeepsWord(word: string, fold: char -> char)
    requires AllLowerCase(word)
    ensures Lower(Quoted(word), fold) == Quoted(word)
  {
    forall k | 0 <= k < |Quoted(word)|
      ensures Lower(Quoted(word), fold)[k] == Quoted(word)[k]
    {
      assert Quoted(word)[k] == '"' || 'a' <= Quoted(word)[k] <= 'z';
    }
  }

  /** One quoted word is in another only if they are the same. */
  lemma QuotedInQuoted(s: string, word: string)
    requires AllLowerCase(s) && AllLowerCase(word)
    ensures Contains(Quoted(s), Quoted(word)) <==> s == word
  {
    var text, part := Quoted(s), Quoted(word);
    if s == word {
      assert OccursAt(text, part, 0);
    }
    if Contains(text, part) {
      var i: nat :| i <= |text| && OccursAt(text, part, i);
      assert text[i] == text[i..i + |part|][0] == '"';
      assert i == 0;
      assert text[|word| + 1] == part[|word| + 1] == '"';
      assert s == text[1..|s| + 1] == part[1..|word| + 1] == word;
    }
  }

  /** The searches the scan makes for a step type. */
  function SearchFor(stepType: string, fold: char -> char, escape: char -> string): (s: Search) {
    Search(Quoted(stepType), stepType != "package", fold, escape)
  }

  function SearchSingle(fold: char -> char, escape: char -> string): (s: Search) {
    Search("'package'", false, fold, escape)
  }

  lemma SearchesAreForQuoted(stepType: string, fold: char -> char, escape: char -> string)
    requires AllLowerCase(stepType)
    ensures SearchFor(stepType, fold, escape).ForQuoted() && SearchSingle(fold, escape).ForQuoted()
  {}

  /** The value mentions a step type in some key, text or number. */
  predicate Mentions(j: Json, stepType: string, fold: char -> char, escape: char -> string) {
    || SearchFor(stepType, fold, escape).Mentions(j)
    || (stepType == "package" && SearchSingle(fold, escape).Mentions(j))
  }

  /** The exact meaning of the scan, for every JSON value: it finds what the value mentions. */
  lemma ScanFindsMentions(j: Json, stepType: string, fold: char -> char, escape: char -> string)
    requires AllLowerCase(stepType)
    ensures Finds(Marshal(j, escape), fold, stepType) <==> Mentions(j, stepType, fold, escape)
  {
    SearchesAreForQuoted(stepType, fold, escape);
    MarshalHits(SearchFor(stepType, fold, escape), j);
    MarshalHits(SearchSingle(fold, escape), j);
  }

  /** A lower-case text mentions its own word and no other. */
  lemma WordMentionsItself(s: string, stepType: string, fold: char -> char, escape: char -> string)
    requires AllLowerCase(s) && AllLowerCase(stepType)
    ensures SearchFor(stepType, fold, escape).Hits(Quote(s, escape)) <==> s == stepType
    ensures !SearchSingle(fold, escape).Hits(Quote(s, escape))
  {
    LowerCaseNeedsNoEscape(s, escape);
    LowerKeepsWord(s, fold);
    QuotedInQuoted(s, stepType);
    if SearchSingle(fold, escape).Hits(Quote(s, escape)) {
      assert "'package'"[0] == '\'';
      CharsOfPartOccur(Quoted(s), "'package'", '\'');
    }
  }

  // ------------------------------------------------------- soundness, exactness

  /** The step type the executor reads from a step, which must be a text. */
  predicate HasType(step: Json, stepType: string) {
    step.Object? && exists k :: 0 <= k < |step.fields| && step.fields[k] == Field("type", Text(stepType))
  }

  predicate SomeHasType(steps: seq<Json>, stepType: string) {
    exists i :: 0 <= i < |steps| && HasType(steps[i], stepType)
  }

  lemma StepTypesAreLowerCase(stepType: string)
    requires stepType in STEP_TYPES
    ensures AllLowerCase(stepType)
  {}

  lemma {:induction false} FieldIsMentioned(s: Search, fields: seq<Field>, k: nat)
    requires k < |fields| && s.Mentions(fields[k].value)
    ensures s.MentionsField(fields)
  {
    if k == 0 {
    } else {
      FieldIsMentioned(s, fields[1..], k - 1);
    }
  }

  lemma {:induction false} ItemIsMentioned(s: Search, items: seq<Json>, i: nat)
    requires i < |items| && s.Mentions(items[i])
    ensures s.MentionsItem(items)
  {
    if i == 0 {
    } else {
      ItemIsMentioned(s, items[1..], i - 1);
    }
  }

  /** The type of any step is mentioned, whatever else the list holds. */
  lemma TypeIsMentioned(steps: seq<Json>, i: nat, stepType: string, fold: char -> char, escape: char -> string)
    requires i < |steps| && HasType(steps[i], stepType) && AllLowerCase(stepType)
    ensures Mentions(List(steps), stepType, fold, escape)
  {
    var s, fields := SearchFor(stepType, fold, escape), steps[i].fields;
    var k :| 0 <= k < |fields| && fields[k] == Field("type", Text(stepType));
    WordMentionsItself(stepType, stepType, fold, escape);
    FieldIsMentioned(s, fields, k);
    ItemIsMentioned(s, steps, i);
  }

  /**
   The scan is sound: for every list of steps, however deep and whatever else
   it holds, the capability of every step type the executor can dispatch is
   demanded.
   */
  lemma ScanCoversDispatch(steps: seq<Json>, i: nat, stepType: string, escape: char -> string, fold: char -> char)
    requires i < |steps| && HasType(steps[i], stepType) && StepCapability(stepType).Some?
    ensures StepCapability(stepType).value
         in RequiredCapabilities("WORKFLOW_STEPS", Marshal(List(steps), escape), fold)
  {
    StepTypesAreLowerCase(stepType);
    TypeIsMentioned(steps, i, stepType, fold, escape);
    ScanFindsMentions(List(steps), stepType, fold, escape);
    DemandIsVisible(Marshal(List(steps), escape), fold, stepType);
    assert Marshal(List(steps), escape)[0] == '[';
  }

  /**
   The scan is exact, for every JSON value: it demands the capability of the
   step types the value mentions, and EXEC_BASH also when it mentions none of
   the other five.
   */
  lemma DemandedExactlyWhenMentioned(j: Json, t: string, escape: char -> string, fold: char -> char)
    requires t in STEP_TYPES
    ensures StepCapability(t).value in StepCapabilities(Marshal(j, escape), fold)
       <==> (|| Mentions(j, t, fold, escape)
             || (t == "command" && forall u :: u in OTHER_TYPES ==> !Mentions(j, u, fold, escape)))
  {
    forall u | u in STEP_TYPES
      ensures Finds(Marshal(j, escape), fold, u) <==> Mentions(j, u, fold, escape)
    {
      StepTypesAreLowerCase(u);
      ScanFindsMentions(j, u, fold, escape);
    }
    DemandIsVisible(Marshal(j, escape), fold, t);
  }

  predicate SomeMentions(steps: seq<Json>, t: string, fold: char -> char, escape: char -> string) {
    exists i :: 0 <= i < |steps| && Mentions(steps[i], t, fold, escape)
  }

  lemma SearchesList(s: Search, items: seq<Json>)
    ensures s.Mentions(List(items)) <==> (items != [] && (s.Mentions(items[0]) || s.Mentions(List(items[1..]))))
  {
    assert s.Mentions(List(items)) == s.MentionsItem(items);
    if items != [] {
      assert s.Mentions(List(items[1..])) == s.MentionsItem(items[1..]);
    }
  }

  /** A list mentions what its items mention. */
  lemma {:induction false} ListMentions(items: seq<Json>, t: string, fold: char -> char, escape: char -> string)
    ensures Mentions(List(items), t, fold, escape) <==> SomeMentions(items, t, fold, escape)
  {
    SearchesList(SearchFor(t, fold, escape), items);
    SearchesList(SearchSingle(fold, escape), items);
    if items == [] {
    } else {
      ListMentions(items[1..], t, fold, escape);
      if i :| 0 <= i < |items[1..]| && Mentions(items[1..][i], t, fold, escape) {
        assert Mentions(items[i + 1], t, fold, escape);
      }
    }
  }

  lemma TypeIsMentionedByStep(step: Json, t: string, fold: char -> char, escape: char -> string)
    requires HasType(step, t) && AllLowerCase(t)
    ensures Mentions(step, t, fold, escape)
  {
    TypeIsMentioned([step], 0, t, fold, escape);
    ListMentions([step], t, fold, escape);
  }

  /**
   The step mentions no step type but its own: a command step may have its
   `command` parameter, and every text and key the scan takes for no type is
   free.
   */
  predicate OwnsItsWords(step: Json, fold: char -> char, escape: char -> string) {
    forall t :: t in STEP_TYPES && Mentions(step, t, fold, escape) ==> HasType(step, t)
  }

  /** For such steps the scan demands what their types need, and EXEC_BASH also without any of the other five. */
  lemma ScanIsExact(steps: seq<Json>, t: string, escape: char -> string, fold: char -> char)
    requires t in STEP_TYPES
    requires forall i :: 0 <= i < |steps| ==> OwnsItsWords(steps[i], fold, escape)
    ensures StepCapability(t).value in StepCapabilities(Marshal(List(steps), escape), fold)
       <==> (|| SomeHasType(steps, t)
             || (t == "command" && forall u :: u in OTHER_TYPES ==> !SomeHasType(steps, u)))
  {
    forall u | u in STEP_TYPES
      ensures Mentions(List(steps), u, fold, escape) <==> SomeHasType(steps, u)
    {
      StepsMentionTypes(steps, u, fold, escape);
    }
    DemandedExactlyWhenMentioned(List(steps), t, escape, fold);
  }

  lemma StepsMentionTypes(steps: seq<Json>, t: string, fold: char -> char, escape: char -> string)
    requires t in STEP_TYPES
    requires forall i :: 0 <= i < |steps| ==> OwnsItsWords(steps[i], fold, escape)
    ensures Mentions(List(steps), t, fold, escape) <==> SomeHasType(steps, t)
  {
    StepTypesAreLowerCase(t);
    ListMentions(steps, t, fold, escape);
    if i :| 0 <= i < |steps| && HasType(steps[i], t) {
      TypeIsMentionedByStep(steps[i], t, fold, escape);
    }
  }

  // ------------------------------------------------------------- single steps

  /** An object mentions what its keys and values mention. */
  lemma {:induction false} FieldsMention(s: Search, fields: seq<Field>)
    ensures s.MentionsField(fields) <==>
            exists k :: 0 <= k < |fields| && (s.Hits(Quote(fields[k].key, s.escape)) || s.Mentions(fields[k].value))
  {
    if fields == [] {
    } else {
      FieldsMention(s, fields[1..]);
      var rest := fields[1..];
      if k :| 0 <= k < |rest| && (s.Hits(Quote(rest[k].key, s.escape)) || s.Mentions(rest[k].value)) {
        assert s.Hits(Quote(fields[k + 1].key, s.escape)) || s.Mentions(fields[k + 1].value);
      }
    }
  }

  function StepOf(stepType: string): (step: Json) { Object([Field("type", Text(stepType))]) }

  function CommandStep(command: string): (step: Json) {
    Object([Field("params", Object([Field("command", Text(command))])), Field("type", Text("command"))])
  }

  lemma KeyMentions(key: string, t: string, fold: char -> char, escape: char -> string)
    requires AllLowerCase(key) && AllLowerCase(t)
    ensures Mentions(Text(key), t, fold, escape) <==> key == t
  {
    WordMentionsItself(key, t, fold, escape);
  }

  /** A step of nothing but a type mentions what the type, however it is written, mentions. */
  lemma StepOfMentions(stepType: string, t: string, fold: char -> char, escape: char -> string)
    requires t in STEP_TYPES
    ensures Mentions(StepOf(stepType), t, fold, escape) <==> Mentions(Text(stepType), t, fold, escape)
  {
    StepTypesAreLowerCase(t);
    KeyMentions("type", t, fold, escape);
    OneFieldMentions(SearchFor(t, fold, escape), Field("type", Text(stepType)));
    OneFieldMentions(SearchSingle(fold, escape), Field("type", Text(stepType)));
  }

  lemma OneFieldMentions(s: Search, f: Field)
    ensures s.Mentions(Object([f])) <==> s.Hits(Quote(f.key, s.escape)) || s.Mentions(f.value)
  {
    assert s.Mentions(Object([f])) == s.MentionsField([f]);
    FieldsMention(s, [f]);
  }

  lemma TwoFieldsMention(s: Search, f: Field, g: Field)
    ensures s.Mentions(Object([f, g])) <==> s.Mentions(Object([f])) || s.Mentions(Object([g]))
  {
    OneFieldMentions(s, f);
    OneFieldMentions(s, g);
    var fields := [f, g];
    assert s.Mentions(Object(fields)) == s.MentionsField(fields);
    assert fields[0] == f && fields[1] == g;
    FieldsMention(s, fields);
  }

  lemma FieldNamesAreNoTypes()
    ensures "type" !in STEP_TYPES && "params" !in STEP_TYPES
    ensures AllLowerCase("type") && AllLowerCase("params") && AllLowerCase("command")
  {}

  lemma CommandStepMentions(command: string, t: string, fold: char -> char, escape: char -> string)
    requires t in STEP_TYPES
    ensures Mentions(CommandStep(command), t, fold, escape)
       <==> t == "command" || Mentions(Text(command), t, fold, escape)
  {
    StepTypesAreLowerCase(t);
    FieldNamesAreNoTypes();
    KeyMentions("params", t, fold, escape);
    KeyMentions("command", t, fold, escape);
    StepOfMentions("command", t, fold, escape);
    SearchesCommand(SearchFor(t, fold, escape), command);
    SearchesCommand(SearchSingle(fold, escape), command);
  }

  /** A command step that runs owns its words, as long as the shell line itself mentions no other type. */
  lemma RunnableCommandOwnsItsWords(command: string, fold: char -> char, escape: char -> string)
    requires forall t :: t in OTHER_TYPES ==> !Mentions(Text(command), t, fold, escape)
    ensures OwnsItsWords(CommandStep(command), fold, escape)
  {
    forall t | t in STEP_TYPES && Mentions(CommandStep(command), t, fold, escape)
      ensures t == "command"
    {
      CommandStepMentions(command, t, fold, escape);
    }
    assert CommandStep(command).fields[1] == Field("type", Text("command"));
  }

  lemma SearchesCommand(s: Search, command: string)
    ensures s.Mentions(CommandStep(command)) <==>
            (|| s.Mentions(Text("params")) || s.Mentions(Text("command")) || s.Mentions(Text(command))
             || s.Mentions(StepOf("command")))
  {
    var inner := Field("command", Text(command));
    TwoFieldsMention(s, Field("params", Object([inner])), Field("type", Text("command")));
    OneFieldMentions(s, Field("params", Object([inner])));
    OneFieldMentions(s, inner);
  }

  // ------------------------------------------------------ unknown step types

  predicate CommandOrNothingKnown(steps: seq<Json>) {
    SomeHasType(steps, "command") || forall u :: u in OTHER_TYPES ==> !SomeHasType(steps, u)
  }

  /**
   Where an unknown type occurs in a list, whatever the list holds, EXEC_BASH is
   demanded exactly when some step mentions `command` or none mentions another
   known type. For steps that own their words: when some step has the type
   `command` or none has another known type.
   */
  lemma UnknownTypeDemandsBashExactlyWhen(steps: seq<Json>, i: nat, t: string,
                                          escape: char -> string, fold: char -> char)
    requires i < |steps| && HasType(steps[i], t) && t !in STEP_TYPES
    ensures "EXEC_BASH" in StepCapabilities(Marshal(List(steps), escape), fold)
       <==> (|| SomeMentions(steps, "command", fold, escape)
             || forall u :: u in OTHER_TYPES ==> !SomeMentions(steps, u, fold, escape))
    ensures (forall k :: 0 <= k < |steps| ==> OwnsItsWords(steps[k], fold, escape)) ==>
              ("EXEC_BASH" in StepCapabilities(Marshal(List(steps), escape), fold) <==> CommandOrNothingKnown(steps))
  {
    if forall k :: 0 <= k < |steps| ==> OwnsItsWords(steps[k], fold, escape) {
      ScanIsExact(steps, "command", escape, fold);
    }
    forall u | u in STEP_TYPES
      ensures Mentions(List(steps), u, fold, escape) <==> SomeMentions(steps, u, fold, escape)
    {
      ListMentions(steps, u, fold, escape);
    }
    DemandedExactlyWhenMentioned(List(steps), "command", escape, fold);
  }

  lemma TwoStepsMention(a: Json, b: Json, t: string, fold: char -> char, escape: char -> string)
    ensures Mentions(List([a, b]), t, fold, escape) <==> Mentions(a, t, fold, escape) || Mentions(b, t, fold, escape)
  {
    var steps := [a, b];
    ListMentions(steps, t, fold, escape);
    assert steps[0] == a && steps[1] == b;
  }

  lemma PackageStepMentions(t: string, fold: char -> char, escape: char -> string)
    requires t in STEP_TYPES
    ensures Mentions(StepOf("package"), t, fold, escape) <==> t == "package"
  {
    StepTypesAreLowerCase(t);
    StepTypesAreLowerCase("package");
    StepOfMentions("package", t, fold, escape);
    KeyMentions("package", t, fold, escape);
  }

  /** A package step hides the type beside it, in any spelling, exactly when that does not mention `command`. */
  lemma HiddenByPackageExactlyWhen(t: string, escape: char -> string, fold: char -> char)
    ensures "EXEC_BASH" !in StepCapabilities(Marshal(List([StepOf("package"), StepOf(t)]), escape), fold)
       <==> !Mentions(Text(t), "command", fold, escape)
  {
    var a, b := StepOf("package"), StepOf(t);
    PackageStepMentions("package", fold, escape);
    PackageStepMentions("command", fold, escape);
    StepOfMentions(t, "command", fold, escape);
    TwoStepsMention(a, b, "package", fold, escape);
    TwoStepsMention(a, b, "command", fold, escape);
    DemandedExactlyWhenMentioned(List([a, b]), "command", escape, fold);
  }

  /** In particular every lower-case type but `command` itself goes unnoticed. */
  lemma UnknownTypeCanGoUnnoticed(t: string, escape: char -> string, fold: char -> char)
    requires AllLowerCase(t) && t !in STEP_TYPES
    ensures "EXEC_BASH" !in StepCapabilities(Marshal(List([StepOf("package"), StepOf(t)]), escape), fold)
  {
    KeyMentions(t, "command", fold, escape);
    HiddenByPackageExactlyWhen(t, escape, fold);
  }

  /**
   A type that is a known one but for its case is unknown to the executor, and
   alone in the list it demands the capability of the known one in place of
   EXEC_BASH.
   */
  lemma MiscasedTypeDemandsAnother(t: string, known: string, escape: char -> string, fold: char -> char)
    requires known in OTHER_TYPES - {"package"} && Lower(Escape(t, escape), fold) == known
    ensures StepCapability(known).value in StepCapabilities(Marshal(List([StepOf(t)]), escape), fold)
    ensures "EXEC_BASH" !in StepCapabilities(Marshal(List([StepOf(t)]), escape), fold)
  {
    StepTypesAreLowerCase(known);
    LowerCasesDecide(t, known, escape, fold);
    OnlyStepMentions(t, known, fold, escape);
    OnlyStepMentions(t, "command", fold, escape);
    DemandedExactlyWhenMentioned(List([StepOf(t)]), known, escape, fold);
    DemandedExactlyWhenMentioned(List([StepOf(t)]), "command", escape, fold);
  }

  /** A type that reads as `known` in lower case mentions it and not `command`. */
  lemma LowerCasesDecide(t: string, known: string, escape: char -> string, fold: char -> char)
    requires known in OTHER_TYPES - {"package"} && Lower(Escape(t, escape), fold) == known
    ensures Mentions(Text(t), known, fold, escape) && !Mentions(Text(t), "command", fold, escape)
  {
    StepTypesAreLowerCase(known);
    StepTypesAreLowerCase("command");
    assert Lower(Quote(t, escape), fold) == Quoted(known);
    QuotedInQuoted(known, known);
    QuotedInQuoted(known, "command");
  }

  lemma OnlyStepMentions(stepType: string, t: string, fold: char -> char, escape: char -> string)
    requires t in STEP_TYPES
    ensures Mentions(List([StepOf(stepType)]), t, fold, escape) <==> Mentions(Text(stepType), t, fold, escape)
  {
    var steps := [StepOf(stepType)];
    StepOfMentions(stepType, t, fold, escape);
    ListMentions(steps, t, fold, escape);
    assert steps[0] == StepOf(stepType);
  }

  /** For instance `Service`, with a capital that is not escaped. */
  lemma ServiceWithCapital(escape: char -> string, fold: char -> char)
    requires escape('S') == "S"
    ensures StepCapability("Service").None?
    ensures "EXEC_BASH" !in StepCapabilities(Marshal(List([StepOf("Service")]), escape), fold)
    ensures "SERVICE_CONTROL" in StepCapabilities(Marshal(List([StepOf("Service")]), escape), fold)
  {
    ServiceIsRead(escape, fold);
    MiscasedTypeDemandsAnother("Service", "service", escape, fold);
  }

  lemma ServiceIsRead(escape: char -> string, fold: char -> char)
    requires escape('S') == "S"
    ensures Lower(Escape("Service", escape), fold) == "service"
  {
    assert "Service" == "S" + "ervice";
    CapitalisedIsRead("ervice", escape, fold);
    assert "service" == "s" + "ervice";
  }

  lemma CapitalisedIsRead(rest: string, escape: char -> string, fold: char -> char)
    requires escape('S') == "S" && AllLowerCase(rest)
    ensures Lower(Escape("S" + rest, escape), fold) == "s" + rest
  {
    var t := "S" + rest;
    assert t[0] == 'S' && t[1..] == rest;
    LowerCaseNeedsNoEscape(rest, escape);
    assert Escape(t, escape) == t;
  }
}
