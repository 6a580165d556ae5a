/**
 Platform settings: typed values stored as text rows, read back through a
 schema, with secrets masked on the way out and a mask ignored on the way in.
 */
module Settings {
  import opened Common

  datatype Kind = BOOLEAN | INTEGER | STRING

  /** A setting value; `Other` is anything else a client may send, by its printed form. */
  datatype Value = Flag(flag: bool) | Whole(number: int) | Words(text: string) | Other(printed: string)

  datatype Field = Field(kind: Kind, default: Value)

  /** Group, then key. */
  type Groups = map<string, map<string, Field>>

  datatype Row = Row(value: string, kind: Kind)

  type Rows = map<string, Row>

  /** `lower` is the library's lower-casing, `lenient` its integer parser on text that is not plain decimal. */
  datatype Schema = Schema(
    groups: Groups, secrets: set<string>, lower: string -> string, lenient: string -> Option<int>)

  const MASK: string := "\U{2022}\U{2022}\U{2022}\U{2022}\U{2022}\U{2022}\U{2022}\U{2022}"

  // ------------------------------------------------------- numbers as text

  function Digit(n: nat): (r: char)
    requires n < 10
  {
    ['0', '1', '2', '3', '4', '5', '6', '7', '8', '9'][n]
  }

  predicate IsDigit(c: char) { '0' <= c <= '9' }

  function Print(n: nat): (s: string)
    ensures s != ""
  {
    if n < 10 then [Digit(n)] else Print(n / 10) + [Digit(n % 10)]
  }

  function Scan(s: string): (r: nat)
    requires forall c :: c in s ==> IsDigit(c)
  {
    if s == "" then 0 else
    var last := s[|s| - 1];
    assert IsDigit(last);
    Scan(s[..|s| - 1]) * 10 + (last - '0') as int
  }

  lemma {:induction false} ScanUndoesPrint(n: nat)
    ensures forall c :: c in Print(n) ==> IsDigit(c)
    ensures Scan(Print(n)) == n
  {
    if n >= 10 {
      ScanUndoesPrint(n / 10);
      assert Print(n)[..|Print(n)| - 1] == Print(n / 10);
    } else {
      assert Print(n)[..0] == "";
    }
  }

  predicate IsDecimal(s: string) {
    s != "" && forall c :: c in s ==> IsDigit(c)
  }

  function PrintInt(i: int): (r: string) {
    if i < 0 then "-" + Print(-i) else Print(i)
  }

  /** Plain decimals are read as such; anything else is up to the library. */
  function ParseInt(schema: Schema, s: string): (r: Option<int>) {
    if IsDecimal(s) then Some(Scan(s))
    else if s != "" && s[0] == '-' && IsDecimal(s[1..]) then Some(0 - Scan(s[1..]))
    else schema.lenient(s)
  }

  lemma ParseUndoesPrint(schema: Schema, i: int)
    ensures ParseInt(schema, PrintInt(i)) == Some(i)
  {
    ScanUndoesPrint(if i < 0 then -i else i);
    if i < 0 {
      var s := PrintInt(i);
      assert s[0] == '-' && s[0] in s && s[1..] == Print(-i);
    }
  }

  // ---------------------------------------------------------- cast and print

  function Cast(schema: Schema, raw: Option<string>, field: Field): (r: Value) {
    if raw.None? then field.default else
    match field.kind
    case BOOLEAN => Flag(schema.lower(raw.value) == "true")
    case INTEGER =>
      (match ParseInt(schema, raw.value)
       case None => field.default
       case Some(i) => Whole(i))
    case STRING => Words(raw.value)
  }

  function Stringify(v: Value): (r: string) {
    match v
    case Flag(b) => if b then "true" else "false"
    case Whole(i) => PrintInt(i)
    case Words(s) => s
    case Other(s) => s
  }

  predicate HasKind(v: Value, kind: Kind) {
    match kind
    case BOOLEAN => v.Flag?
    case INTEGER => v.Whole?
    case STRING => v.Words?
  }

  /** The two words the store writes for flags are lower case already. */
  ghost predicate LowersPlainly(schema: Schema) {
    schema.lower("true") == "true" && schema.lower("false") == "false"
  }

  /** A typed value written is the value read back. */
  lemma CastUndoesStringify(schema: Schema, v: Value, field: Field)
    requires LowersPlainly(schema) && HasKind(v, field.kind)
    ensures Cast(schema, Some(Stringify(v)), field) == v
  {
    if v.Whole? {
      ParseUndoesPrint(schema, v.number);
    }
  }

  // -------------------------------------------------------------------- keys

  predicate NoDot(s: string) { forall i :: 0 <= i < |s| ==> s[i] != '.' }

  function FullKey(group: string, key: string): (r: string) { group + "." + key }

  datatype Path = Path(group: string, key: string)

  /** Splits at the first dot, as the single-value lookup does. */
  function Partition(full: string): (r: Path) {
    if full == "" then Path("", "")
    else if full[0] == '.' then Path("", full[1..])
    else Path([full[0]] + Partition(full[1..]).group, Partition(full[1..]).key)
  }

  lemma {:induction false} PartitionUndoesFullKey(group: string, key: string)
    requires NoDot(group)
    ensures Partition(FullKey(group, key)) == Path(group, key) && FullKey(group, key) == group + "." + key
  {
    if group == "" {
      assert FullKey(group, key)[1..] == key;
    } else {
      PartitionUndoesFullKey(group[1..], key);
      assert FullKey(group, key)[1..] == FullKey(group[1..], key);
    }
  }

  /** Without a dot the whole text is the group. */
  lemma {:induction false} PartitionOfPlain(s: string)
    requires NoDot(s)
    ensures Partition(s) == Path(s, "")
  {
    if s == "" {
    } else {
      PartitionOfPlain(s[1..]);
    }
  }

  ghost predicate WellFormed(schema: Schema) {
    && LowersPlainly(schema)
    && (forall g :: g in schema.groups ==> NoDot(g))
    && (forall g, k :: g in schema.groups && k in schema.groups[g] ==>
          HasKind(schema.groups[g][k].default, schema.groups[g][k].kind))
  }

  predicate Known(schema: Schema, group: string, key: string) {
    group in schema.groups && key in schema.groups[group]
  }

  function Stored(rows: Rows, full: string): (r: Option<string>) {
    if full in rows then Some(rows[full].value) else None
  }

  /** The value workers see. */
  function Effective(schema: Schema, rows: Rows, group: string, key: string): (r: Value)
    requires Known(schema, group, key)
  {
    Cast(schema, Stored(rows, FullKey(group, key)), schema.groups[group][key])
  }

  /** Whether a value counts as set. */
  predicate Truthy(v: Value) {
    match v
    case Flag(b) => b
    case Whole(i) => i != 0
    case Words(s) => s != ""
    case Other(_) => true
  }

  /** The value clients see: secrets that are set are masked. */
  function Shown(schema: Schema, rows: Rows, group: string, key: string): (r: Value)
    requires Known(schema, group, key)
  {
    var v := Effective(schema, rows, group, key);
    if FullKey(group, key) in schema.secrets && Truthy(v) then Words(MASK) else v
  }

  /** What every kind of row reads as: no row, or an integer that cannot be read, gives the default. */
  lemma EffectiveOfRow(schema: Schema, rows: Rows, g: string, k: string)
    requires Known(schema, g, k)
    ensures var v, field := Effective(schema, rows, g, k), schema.groups[g][k];
      var full := g + "." + k;
      && (full !in rows ==> v == field.default)
      && (full in rows && field.kind.STRING? ==> v == Words(rows[full].value))
      && (full in rows && field.kind.BOOLEAN? ==> v == Flag(schema.lower(rows[full].value) == "true"))
      && (full in rows && field.kind.INTEGER? ==>
            if ParseInt(schema, rows[full].value).Some? then v == Whole(ParseInt(schema, rows[full].value).value)
            else v == field.default)
  {}

  /** Set means: true, not zero, or not empty. */
  ghost predicate IsUnset(v: Value) {
    v == Flag(false) || v == Whole(0) || v == Words("")
  }

  /** A secret that is set shows as the mask, whatever it is; one that is not, and any other setting, as it is. */
  lemma ShownExactly(schema: Schema, rows: Rows, g: string, k: string)
    requires Known(schema, g, k)
    ensures var shown, v := Shown(schema, rows, g, k), Effective(schema, rows, g, k);
      && (g + "." + k in schema.secrets && !IsUnset(v) ==> shown == Words(MASK))
      && (g + "." + k in schema.secrets && IsUnset(v) ==> shown == v)
      && (g + "." + k !in schema.secrets ==> shown == v)
  {}

  /** So two tables that both have a secret set show the same. */
  lemma SecretsLookAlike(schema: Schema, rows: Rows, others: Rows, g: string, k: string)
    requires Known(schema, g, k) && g + "." + k in schema.secrets
    requires !IsUnset(Effective(schema, rows, g, k)) && !IsUnset(Effective(schema, others, g, k))
    ensures Shown(schema, rows, g, k) == Shown(schema, others, g, k)
  {
    ShownExactly(schema, rows, g, k);
    ShownExactly(schema, others, g, k);
  }

  // ----------------------------------------------------------------- updates

  /** What a client sends: a group may hold something that is not a table of keys. */
  type Payload = map<string, Option<map<string, Value>>>

  predicate Sends(payload: Payload, group: string, key: string) {
    group in payload && payload[group].Some? && key in payload[group].value
  }

  /** The payload changes this setting: a known key, and not a masked secret echoed back. */
  predicate Writes(schema: Schema, payload: Payload, group: string, key: string) {
    && Sends(payload, group, key) && Known(schema, group, key)
    && !(FullKey(group, key) in schema.secrets && payload[group].value[key] == Words(MASK))
  }

  function RowOf(rows: Rows, full: string): (r: Option<Row>) {
    if full in rows then Some(rows[full]) else None
  }

  /** The row under a key after an update. */
  function RowAfter(schema: Schema, rows: Rows, payload: Payload, full: string): (r: Option<Row>) {
    var p := Partition(full);
    if FullKey(p.group, p.key) == full && Writes(schema, payload, p.group, p.key)
    then Some(Row(Stringify(payload[p.group].value[p.key]), schema.groups[p.group][p.key].kind))
    else RowOf(rows, full)
  }

  /** What an update reports of a key: its new text, or stars for a secret. */
  function Reported(schema: Schema, payload: Payload, full: string): (text: Option<string>) {
    var p := Partition(full);
    if FullKey(p.group, p.key) != full || !Writes(schema, payload, p.group, p.key) then None
    else if full in schema.secrets then Some("***")
    else Some(Stringify(payload[p.group].value[p.key]))
  }

  function ReportOf(changes: map<string, string>, full: string): (text: Option<string>) {
    if full in changes then Some(changes[full]) else None
  }

  ghost predicate IsUpdate(schema: Schema, before: Rows, payload: Payload, after: Rows) {
    forall full :: RowOf(after, full) == RowAfter(schema, before, payload, full)
  }

  /** One group of the payload, sent alone, does what it does in the payload and nothing else. */
  lemma GroupPart(schema: Schema, rows: Rows, payload: Payload, g: string, full: string)
    requires g in payload
    ensures var alone: Payload := map[g := payload[g]];
      && Reported(schema, alone, full) == (if Partition(full).group == g then Reported(schema, payload, full) else None)
      && RowAfter(schema, rows, alone, full)
           == (if Partition(full).group == g then RowAfter(schema, rows, payload, full) else RowOf(rows, full))
  {}

  /** Of the full keys that end in `k`, the update of one group touches its own only. */
  lemma KeyPart(schema: Schema, rows: Rows, g: string, keys: map<string, Value>, k: string, full: string)
    requires NoDot(g)
    ensures Partition(FullKey(g, k)) == Path(g, k)
    ensures Partition(full).key == k && full != FullKey(g, k) ==>
              && RowAfter(schema, rows, map[g := Some(keys)], full) == RowOf(rows, full)
              && Reported(schema, map[g := Some(keys)], full) == None
  {
    PartitionUndoesFullKey(g, k);
  }

  /** The payload sends a value for this known key that is not the mask sent back to a secret. */
  ghost predicate ReallySends(schema: Schema, payload: Payload, g: string, k: string) {
    && g in payload && payload[g].Some? && k in payload[g].value
    && g in schema.groups && k in schema.groups[g]
    && !(g + "." + k in schema.secrets && payload[g].value[k] == Words(MASK))
  }

  /** What a value is written as. */
  ghost predicate IsWritten(v: Value, text: string) {
    match v
    case Flag(b) => text == if b then "true" else "false"
    case Whole(i) => text == PrintInt(i)
    case Words(s) => text == s
    case Other(s) => text == s
  }

  /** An update, key by key: the value sent and the kind of the schema, or the row as it was. */
  lemma UpdatedRows(schema: Schema, before: Rows, payload: Payload, after: Rows, g: string, k: string)
    requires WellFormed(schema) && IsUpdate(schema, before, payload, after) && NoDot(g)
    ensures ReallySends(schema, payload, g, k) ==>
              && g + "." + k in after && after[g + "." + k].kind == schema.groups[g][k].kind
              && IsWritten(payload[g].value[k], after[g + "." + k].value)
              && Reported(schema, payload, g + "." + k) ==
                   Some(if g + "." + k in schema.secrets then "***" else after[g + "." + k].value)
    ensures !ReallySends(schema, payload, g, k) ==>
              && (g + "." + k in after <==> g + "." + k in before)
              && (g + "." + k in before ==> after[g + "." + k] == before[g + "." + k])
              && Reported(schema, payload, g + "." + k) == None
  {
    PartitionUndoesFullKey(g, k);
    assert RowOf(after, FullKey(g, k)) == RowAfter(schema, before, payload, FullKey(g, k));
  }

  /** A row whose key is no group and key of the schema is never touched. */
  lemma ForeignRowsStay(schema: Schema, before: Rows, payload: Payload, after: Rows, full: string)
    requires IsUpdate(schema, before, payload, after)
    requires forall g, k :: g in schema.groups && k in schema.groups[g] ==> full != g + "." + k
    ensures (full in after <==> full in before) && (full in before ==> after[full] == before[full])
    ensures Reported(schema, payload, full) == None
  {
    assert RowOf(after, full) == RowAfter(schema, before, payload, full);
    var p := Partition(full);
    if FullKey(p.group, p.key) == full {
      assert full == p.group + "." + p.key;
    }
  }

  /** Decimals are written without leading zeros. */
  lemma {:induction false} PrintHasNoLeadingZero(n: nat)
    ensures Print(n)[0] == '0' ==> n == 0
  {
    if n < 10 {
      assert Print(n) == [Digit(n)];
    } else {
      PrintHasNoLeadingZero(n / 10);
      assert Print(n)[0] == Print(n / 10)[0];
    }
  }

  class SettingsStore {
    var rows: Rows

    constructor (rows: Rows)
      ensures this.rows == rows
    {
      this.rows := rows;
    }

    /** All settings of the wanted groups; no group wanted means every group. */
    method GetAllSettings(schema: Schema, groups: set<string>) returns (result: map<string, map<string, Value>>)
      ensures result.Keys == (if groups == {} then schema.groups.Keys else groups * schema.groups.Keys)
      ensures forall g :: g in result ==>
                result[g].Keys == schema.groups[g].Keys
                && forall k :: k in result[g] ==>
                     result[g][k] == if g + "." + k in schema.secrets && !IsUnset(Effective(schema, rows, g, k))
                                     then Words(MASK) else Effective(schema, rows, g, k)
    {
      var wanted := if groups == {} then schema.groups.Keys else groups;
      result := map[];
      var left := wanted;
      while left != {}
        invariant left <= wanted
        invariant result.Keys == (wanted - left) * schema.groups.Keys
        invariant forall g :: g in result ==>
                    result[g].Keys == schema.groups[g].Keys
                    && forall k :: k in result[g] ==> result[g][k] == Shown(schema, rows, g, k)
        decreases left
      {
        var g :| g in left;
        left := left - {g};
        if g in schema.groups {
          result := result[g := map k | k in schema.groups[g] :: Shown(schema, rows, g, k)];
        }
      }
      forall g, k | g in result && k in result[g]
        ensures result[g][k] == if g + "." + k in schema.secrets && !IsUnset(Effective(schema, rows, g, k))
                                then Words(MASK) else Effective(schema, rows, g, k)
      {
        ShownExactly(schema, rows, g, k);
      }
    }

    /** Upserts every known key of the payload, except masked secrets; reports what changed. */
    method UpdateSettings(schema: Schema, payload: Payload) returns (changes: map<string, string>)
      requires forall g :: g in schema.groups ==> NoDot(g)
      modifies this
      ensures IsUpdate(schema, old(rows), payload, rows)
      ensures forall full :: ReportOf(changes, full) == Reported(schema, payload, full)
    {
      changes := map[];
      var groups := payload.Keys;
      while groups != {}
        invariant groups <= payload.Keys
        invariant forall full :: RowOf(rows, full) ==
                    if Partition(full).group in groups then RowOf(old(rows), full)
                    else RowAfter(schema, old(rows), payload, full)
        invariant forall full :: ReportOf(changes, full) ==
                    if Partition(full).group in groups then None else Reported(schema, payload, full)
        decreases groups
      {
        var g :| g in groups;
        groups := groups - {g};
        ghost var before, reported := rows, changes;
        if g in schema.groups && payload[g].Some? {
          var more := UpdateGroup(schema, g, payload[g].value);
          changes := changes + more;
        }
        forall full
          ensures RowOf(rows, full) == if Partition(full).group in groups then RowOf(old(rows), full)
                                       else RowAfter(schema, old(rows), payload, full)
          ensures ReportOf(changes, full) ==
                    if Partition(full).group in groups then None else Reported(schema, payload, full)
        {
          GroupPart(schema, before, payload, g, full);
          assert RowOf(before, full) == if Partition(full).group in groups + {g} then RowOf(old(rows), full)
                                        else RowAfter(schema, old(rows), payload, full);
          assert ReportOf(reported, full) ==
                   if Partition(full).group in groups + {g} then None else Reported(schema, payload, full);
        }
      }
    }

    method UpdateGroup(schema: Schema, g: string, keys: map<string, Value>) returns (changes: map<string, string>)
      requires g in schema.groups && NoDot(g)
      modifies this
      ensures forall full :: RowOf(rows, full) == RowAfter(schema, old(rows), map[g := Some(keys)], full)
      ensures forall full :: ReportOf(changes, full) == Reported(schema, map[g := Some(keys)], full)
    {
      changes := map[];
      var left := keys.Keys;
      while left != {}
        invariant left <= keys.Keys
        invariant forall full :: RowOf(rows, full) ==
                    if Partition(full).key in left then RowOf(old(rows), full)
                    else RowAfter(schema, old(rows), map[g := Some(keys)], full)
        invariant forall full :: ReportOf(changes, full) ==
                    if Partition(full).key in left then None else Reported(schema, map[g := Some(keys)], full)
        decreases left
      {
        var k :| k in left;
        left := left - {k};
        ghost var before, reported := rows, changes;
        changes := UpsertKey(schema, g, keys, k, changes);
        forall full
          ensures RowOf(rows, full) ==
                    if Partition(full).key in left then RowOf(old(rows), full)
                    else RowAfter(schema, old(rows), map[g := Some(keys)], full)
          ensures ReportOf(changes, full) ==
                    if Partition(full).key in left then None else Reported(schema, map[g := Some(keys)], full)
        {
          KeyPart(schema, before, g, keys, k, full);
          KeyPart(schema, old(rows), g, keys, k, full);
          assert RowOf(before, full) ==
                   if Partition(full).key in left + {k} then RowOf(old(rows), full)
                   else RowAfter(schema, old(rows), map[g := Some(keys)], full);
          assert ReportOf(reported, full) ==
                   if Partition(full).key in left + {k} then None else Reported(schema, map[g := Some(keys)], full);
        }
      }
    }

    /** Upserts one key if it is known and not a masked secret, and reports it. */
    method UpsertKey(schema: Schema, g: string, keys: map<string, Value>, k: string, changes: map<string, string>)
      returns (more: map<string, string>)
      requires g in schema.groups && NoDot(g) && k in keys
      modifies this
      ensures forall full :: full != FullKey(g, k) ==>
                RowOf(rows, full) == RowOf(old(rows), full) && ReportOf(more, full) == ReportOf(changes, full)
      ensures RowOf(rows, FullKey(g, k)) == RowAfter(schema, old(rows), map[g := Some(keys)], FullKey(g, k))
      ensures var report := Reported(schema, map[g := Some(keys)], FullKey(g, k));
        ReportOf(more, FullKey(g, k)) == if report.Some? then report else ReportOf(changes, FullKey(g, k))
    {
      PartitionUndoesFullKey(g, k);
      more := changes;
      var mine := FullKey(g, k);
      if k in schema.groups[g] && !(mine in schema.secrets && keys[k] == Words(MASK)) {
        var text := Stringify(keys[k]);
        rows := rows[mine := Row(text, schema.groups[g][k].kind)];
        more := more[mine := if mine in schema.secrets then "***" else text];
      }
    }

    method GetSettingValue(schema: Schema, full: string) returns (v: Option<Value>)
      ensures forall g, k :: NoDot(g) && full == FullKey(g, k) ==>
                v == if Known(schema, g, k) then Some(Effective(schema, rows, g, k)) else None
      ensures NoDot(full) ==>
                v == if !Known(schema, full, "") then None
                     else Some(Cast(schema, Stored(rows, full), schema.groups[full][""]))
    {
      if NoDot(full) {
        PartitionOfPlain(full);
      }
      forall g, k | NoDot(g) && full == FullKey(g, k)
        ensures Partition(full) == Path(g, k)
      {
        PartitionUndoesFullKey(g, k);
      }
      var g, k := Partition(full).group, Partition(full).key;
      if g !in schema.groups || k !in schema.groups[g] {
        return None;
      }
      return Some(Cast(schema, Stored(rows, full), schema.groups[g][k]));
    }
  }

  // ------------------------------------------------------------ main results

  /** Everything shown, sent back as it is. */
  ghost predicate EchoesAll(schema: Schema, rows: Rows, payload: Payload) {
    && payload.Keys == schema.groups.Keys
    && forall g :: g in schema.groups ==>
         payload[g].Some? && payload[g].value.Keys == schema.groups[g].Keys
         && forall k :: k in schema.groups[g] ==> payload[g].value[k] == Shown(schema, rows, g, k)
  }

  lemma CastHasKind(schema: Schema, raw: Option<string>, field: Field)
    requires HasKind(field.default, field.kind)
    ensures HasKind(Cast(schema, raw, field), field.kind)
  {}

  lemma EffectiveAfter(schema: Schema, before: Rows, payload: Payload, after: Rows, g: string, k: string)
    requires WellFormed(schema) && IsUpdate(schema, before, payload, after) && Known(schema, g, k)
    ensures Writes(schema, payload, g, k) ==>
              Effective(schema, after, g, k) == Cast(schema, Some(Stringify(payload[g].value[k])), schema.groups[g][k])
    ensures !Writes(schema, payload, g, k) ==> Effective(schema, after, g, k) == Effective(schema, before, g, k)
  {
    PartitionUndoesFullKey(g, k);
    assert RowOf(after, FullKey(g, k)) == RowAfter(schema, before, payload, FullKey(g, k));
  }

  /**
   Writing back everything that was shown changes no effective setting, for any
   table: masked secrets, missing rows and unreadable integers included.
   */
  lemma EchoChangesNothing(schema: Schema, before: Rows, payload: Payload, after: Rows, g: string, k: string)
    requires WellFormed(schema) && EchoesAll(schema, before, payload) && IsUpdate(schema, before, payload, after)
    requires Known(schema, g, k)
    ensures Effective(schema, after, g, k) == Effective(schema, before, g, k)
  {
    EffectiveAfter(schema, before, payload, after, g, k);
    if Writes(schema, payload, g, k) {
      var field := schema.groups[g][k];
      CastHasKind(schema, Stored(before, FullKey(g, k)), field);
      CastUndoesStringify(schema, Effective(schema, before, g, k), field);
    }
  }

  /**
   A value of the right type is the value read back exactly when it is not the
   mask sent to a secret, or that secret already is the mask.
   */
  lemma WrittenIsReadExactlyWhen(schema: Schema, before: Rows, payload: Payload, after: Rows, g: string, k: string)
    requires WellFormed(schema) && IsUpdate(schema, before, payload, after)
    requires Known(schema, g, k) && Sends(payload, g, k)
    requires HasKind(payload[g].value[k], schema.groups[g][k].kind)
    ensures Effective(schema, after, g, k) == payload[g].value[k] <==>
            (payload[g].value[k] == Words(MASK) && FullKey(g, k) in schema.secrets ==>
               Effective(schema, before, g, k) == Words(MASK))
  {
    EffectiveAfter(schema, before, payload, after, g, k);
    CastUndoesStringify(schema, payload[g].value[k], schema.groups[g][k]);
  }

  /** Settings the payload does not name keep their value. */
  lemma OthersAreUntouched(schema: Schema, before: Rows, payload: Payload, after: Rows, g: string, k: string)
    requires WellFormed(schema) && IsUpdate(schema, before, payload, after)
    requires Known(schema, g, k) && !Sends(payload, g, k)
    ensures Effective(schema, after, g, k) == Effective(schema, before, g, k)
  {
    EffectiveAfter(schema, before, payload, after, g, k);
  }
}
