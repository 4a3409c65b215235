/**
 * The text form in which the settings store keeps the goal list under one
 * preference key (`encodeGoals` / `decodeGoals`): goals separated by `;`,
 * fields by `|`, the name encoded so that it holds neither delimiter.
 */
module GoalCodec {
  import opened Wrappers
  import opened Text
  import opened SavingsGoals

  const GOAL_DELIMITER: char := ';'
  const GOAL_FIELD_DELIMITER: char := '|'
  const ESCAPE: char := '\\'

  /** The text a name character is written as. */
  function EscapeChar(c: char): (r: string)
    ensures GOAL_DELIMITER !in r && GOAL_FIELD_DELIMITER !in r && |r| >= 1
  {
    if c == ESCAPE then [ESCAPE, 'e']
    else if c == GOAL_DELIMITER then [ESCAPE, 's']
    else if c == GOAL_FIELD_DELIMITER then [ESCAPE, 'p']
    else [c]
  }

  /** The encoded name: free of both delimiters. */
  function EncodeName(name: string): (r: string)
    ensures GOAL_DELIMITER !in r && GOAL_FIELD_DELIMITER !in r
  {
    if name == [] then [] else EscapeChar(name[0]) + EncodeName(name[1..])
  }

  /** The name an encoded field stands for; `None` for text `EncodeName` cannot produce. */
  function DecodeName(s: string): (r: Option<string>)
    decreases |s|
  {
    if s == [] then Some([])
    else if s[0] != ESCAPE then
      if s[0] == GOAL_DELIMITER || s[0] == GOAL_FIELD_DELIMITER then None
      else match DecodeName(s[1..])
        case None => None
        case Some(t) => Some([s[0]] + t)
    else if |s| < 2 then None
    else
      var c := if s[1] == 'e' then Some(ESCAPE)
               else if s[1] == 's' then Some(GOAL_DELIMITER)
               else if s[1] == 'p' then Some(GOAL_FIELD_DELIMITER)
               else None;
      match (c, DecodeName(s[2..]))
      case (Some(x), Some(t)) => Some([x] + t)
      case _ => None
  }

  lemma {:induction false} DecodeEncodeName(name: string)
    ensures DecodeName(EncodeName(name)) == Some(name)
  {
    if name != [] {
      var e := EscapeChar(name[0]);
      var rest := EncodeName(name[1..]);
      DecodeEncodeName(name[1..]);
      assert EncodeName(name) == e + rest;
      if |e| == 2 {
        assert (e + rest)[2..] == rest;
      } else {
        assert (e + rest)[1..] == rest;
      }
      assert name == [name[0]] + name[1..];
    }
  }

  /** `parseBooleanFlag`: `"1"` or `"true"` in any letter case. */
  function ParseFlag(raw: string): (r: bool)
    ensures r <==> raw == "1" || Lower(raw) == "true"
  {
    raw == "1" || Lower(raw) == "true"
  }

  function FlagText(b: bool): string {
    if b then "1" else "0"
  }

  /** The seven fields of one goal entry. */
  function EncodeFields(g: SavingsGoal): seq<string>
  {
    [ g.id,
      EncodeName(g.name),
      IntToString(g.target),
      if g.deadlineMillis.Some? then IntToString(g.deadlineMillis.value) else "",
      IntToString(g.updatedAt),
      FlagText(g.deleted),
      g.pendingOp.GetOr("") ]
  }

  function EncodeGoal(g: SavingsGoal): string {
    Join(EncodeFields(g), GOAL_FIELD_DELIMITER)
  }

  /** `encodeGoals`: the entries joined by the goal delimiter; an empty list gives empty text. */
  function EncodeGoals(gs: seq<SavingsGoal>): (r: string)
    ensures gs == [] <==> r == ""
    ensures gs != [] ==> GOAL_FIELD_DELIMITER in r
  {
    var entries := seq(|gs|, i requires 0 <= i < |gs| => EncodeGoal(gs[i]));
    if gs != [] then
      EncodedGoalNotBlank(gs[0]);
      JoinContains(entries, GOAL_DELIMITER, GOAL_FIELD_DELIMITER);
      Join(entries, GOAL_DELIMITER)
    else Join(entries, GOAL_DELIMITER)
  }

  /** `parts.getOrNull(i)`. */
  function Field(parts: seq<string>, i: nat): Option<string> {
    if i < |parts| then Some(parts[i]) else None
  }

  /** The optional numeric fields: absent, blank or unparseable give `None`. */
  function OptionalInt(field: Option<string>): (r: Option<int>)
    ensures field.None? || IsBlank(field.value) ==> r.None?
    ensures field.Some? && !IsBlank(field.value) ==> r == ParseInt(field.value)
  {
    if field.Some? && !IsBlank(field.value) then ParseInt(field.value) else None
  }

  /**
   * One entry of the stored text: `None` (the entry is skipped) when it has
   * fewer than three fields or its name or target cannot be decoded.
   */
  function DecodeGoal(entry: string): (r: Option<SavingsGoal>)
    ensures var parts := Split(entry, GOAL_FIELD_DELIMITER);
            r.Some? <==> |parts| >= 3 && DecodeName(parts[1]).Some? && ParseInt(parts[2]).Some?
    ensures var parts := Split(entry, GOAL_FIELD_DELIMITER);
            r.Some? ==> r.value.id == parts[0] && Some(r.value.name) == DecodeName(parts[1])
                        && Some(r.value.target) == ParseInt(parts[2])
    ensures r.Some? && r.value.pendingOp.Some? ==> !IsBlank(r.value.pendingOp.value)
  {
    var parts := Split(entry, GOAL_FIELD_DELIMITER);
    if |parts| < 3 then None
    else match (DecodeName(parts[1]), ParseInt(parts[2]))
      case (Some(name), Some(target)) =>
        var deadline := OptionalInt(Field(parts, 3));
        var updatedAt := if |parts| > 4 then ParseInt(parts[4]).GetOr(0) else 0;
        var deleted := |parts| > 5 && ParseFlag(parts[5]);
        var pending := if |parts| > 6 && !IsBlank(parts[6]) then Some(parts[6]) else None;
        Some(SavingsGoal(parts[0], name, target, deadline, updatedAt, deleted, pending))
      case _ => None
  }

  /** `mapNotNull` over the entries. */
  function DecodeEntries(entries: seq<string>): (r: seq<SavingsGoal>)
    ensures |r| <= |entries|
    ensures forall g :: g in r ==> exists i :: 0 <= i < |entries| && DecodeGoal(entries[i]) == Some(g)
  {
    if entries == [] then []
    else
      var rest := DecodeEntries(entries[1..]);
      assert forall g :: g in rest ==> exists i :: 0 <= i < |entries| && DecodeGoal(entries[i]) == Some(g) by {
        forall g | g in rest ensures exists i :: 0 <= i < |entries| && DecodeGoal(entries[i]) == Some(g) {
          var i :| 0 <= i < |entries[1..]| && DecodeGoal(entries[1..][i]) == Some(g);
          assert DecodeGoal(entries[i + 1]) == Some(g);
        }
      }
      match DecodeGoal(entries[0])
      case Some(g) => [g] + rest
      case None => rest
  }

  /** `decodeGoals`: a missing or blank value is the empty list. */
  function DecodeGoals(raw: Option<string>): (r: seq<SavingsGoal>)
    ensures raw.None? || IsBlank(raw.value) ==> r == []
  {
    if raw.None? || IsBlank(raw.value) then [] else DecodeEntries(Split(raw.value, GOAL_DELIMITER))
  }

  /** A goal whose id and pending operation the text form can carry. */
  predicate Encodable(g: SavingsGoal) {
    GOAL_DELIMITER !in g.id && GOAL_FIELD_DELIMITER !in g.id
    && (g.pendingOp.Some? ==> !IsBlank(g.pendingOp.value)
                              && GOAL_DELIMITER !in g.pendingOp.value
                              && GOAL_FIELD_DELIMITER !in g.pendingOp.value)
  }

  lemma NumberFree(n: int, d: char)
    requires d == GOAL_DELIMITER || d == GOAL_FIELD_DELIMITER
    ensures d !in IntToString(n) && !IsBlank(IntToString(n))
  {
    var s := IntToString(n);
    assert IsDigit(s[0]) || s[0] == '-';
  }

  lemma FieldsFree(g: SavingsGoal, d: char)
    requires Encodable(g) && (d == GOAL_DELIMITER || d == GOAL_FIELD_DELIMITER)
    ensures forall i :: 0 <= i < |EncodeFields(g)| ==> d !in EncodeFields(g)[i]
  {
    NumberFree(g.target, d);
    NumberFree(g.updatedAt, d);
    if g.deadlineMillis.Some? {
      NumberFree(g.deadlineMillis.value, d);
    }
  }

  /** An entry whose fields are those of `g` decodes to `g`. */
  lemma DecodeGoalFields(entry: string, g: SavingsGoal)
    requires Encodable(g)
    requires Split(entry, GOAL_FIELD_DELIMITER) == EncodeFields(g)
    ensures DecodeGoal(entry) == Some(g)
  {
    DecodeEncodeName(g.name);
    ParseIntToString(g.target);
    ParseIntToString(g.updatedAt);
    if g.deadlineMillis.Some? {
      NumberFree(g.deadlineMillis.value, GOAL_FIELD_DELIMITER);
      ParseIntToString(g.deadlineMillis.value);
    }
    assert !ParseFlag("0") by {
      assert Lower("0") == "0";
    }
  }

  lemma DecodeEncodeGoal(g: SavingsGoal)
    requires Encodable(g)
    ensures DecodeGoal(EncodeGoal(g)) == Some(g)
  {
    FieldsFree(g, GOAL_FIELD_DELIMITER);
    SplitJoin(EncodeFields(g), GOAL_FIELD_DELIMITER);
    DecodeGoalFields(EncodeGoal(g), g);
  }

  /** An encoded entry holds a field delimiter, so it is never blank. */
  lemma EncodedGoalNotBlank(g: SavingsGoal)
    ensures GOAL_FIELD_DELIMITER in EncodeGoal(g)
  {
    var f := EncodeFields(g);
    assert EncodeGoal(g) == f[0] + [GOAL_FIELD_DELIMITER] + Join(f[1..], GOAL_FIELD_DELIMITER);
    assert EncodeGoal(g)[|f[0]|] == GOAL_FIELD_DELIMITER;
  }

  lemma {:induction false} DecodeEncodedEntries(gs: seq<SavingsGoal>)
    requires forall i :: 0 <= i < |gs| ==> Encodable(gs[i])
    ensures DecodeEntries(seq(|gs|, i requires 0 <= i < |gs| => EncodeGoal(gs[i]))) == gs
  {
    if gs != [] {
      var entries := seq(|gs|, i requires 0 <= i < |gs| => EncodeGoal(gs[i]));
      DecodeEncodeGoal(gs[0]);
      DecodeEncodedEntries(gs[1..]);
      assert entries[1..] == seq(|gs[1..]|, i requires 0 <= i < |gs[1..]| => EncodeGoal(gs[1..][i]));
      assert gs == [gs[0]] + gs[1..];
    }
  }

  /** The store reads back the goals it wrote, for goals whose id and pending operation hold no delimiter. */
  lemma DecodeEncodeGoals(gs: seq<SavingsGoal>)
    requires forall i :: 0 <= i < |gs| ==> Encodable(gs[i])
    ensures DecodeGoals(Some(EncodeGoals(gs))) == gs
  {
    if gs != [] {
      var entries := seq(|gs|, i requires 0 <= i < |gs| => EncodeGoal(gs[i]));
      forall i | 0 <= i < |entries| ensures GOAL_DELIMITER !in entries[i] {
        FieldsFree(gs[i], GOAL_DELIMITER);
        JoinFree(EncodeFields(gs[i]), GOAL_FIELD_DELIMITER, GOAL_DELIMITER);
      }
      SplitJoin(entries, GOAL_DELIMITER);
      var text := EncodeGoals(gs);
      var k :| 0 <= k < |text| && text[k] == GOAL_FIELD_DELIMITER;
      assert !IsBlank(text);
      DecodeEncodedEntries(gs);
    }
  }

  lemma {:induction false} JoinFree(ps: seq<string>, d: char, c: char)
    requires c != d && forall i :: 0 <= i < |ps| ==> c !in ps[i]
    ensures c !in Join(ps, d)
  {
    if |ps| > 1 {
      JoinFree(ps[1..], d, c);
    }
  }

  /** A joined list holds every character of its first piece. */
  lemma JoinContains(ps: seq<string>, d: char, c: char)
    requires |ps| >= 1 && c in ps[0]
    ensures c in Join(ps, d)
  {
    if |ps| > 1 {
      assert Join(ps, d) == ps[0] + [d] + Join(ps[1..], d);
    }
  }
}
