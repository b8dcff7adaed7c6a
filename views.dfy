/**
 * The logic of the product views that does not depend on the web layer:
 * the value dispatch of the attribute and feature forms (form_valid of
 * ProductFinalAttributeCreate/Update and ProductFeatureCreate/Update), the
 * choice of the image shown for a listed variant, and the composition of the
 * free-text search filter of the product list.
 */
module Views {
  import opened Wrappers
  import opened Catalog

  // ------------------------------------------------------ value dispatch

  /** The three value widgets of the form, as cleaned: a checkbox and two optional text fields. */
  datatype FormInput = FormInput(valueBool: bool, valueFree: string, valueList: string)

  datatype FormError = OptionInvalid | ValueInvalid

  function Message(e: FormError): string {
    match e
    case OptionInvalid => "Option invalid"
    case ValueInvalid => "Value invalid"
  }

  /**
   * The value stored for a rule of kind `kind` whose option group is
   * `group`. `options` maps each option's key, as the form carries it, to the
   * group it belongs to. Values are stored as text: a Boolean as "1" or "0".
   */
  function Dispatch(kind: ValueKind, group: Option<GroupId>, options: map<string, GroupId>, input: FormInput)
    : (r: Result<string, FormError>)
    ensures kind == BooleanValue ==> r.Ok? && (r.value == "1" <==> input.valueBool) && (r.value == "0" <==> !input.valueBool)
    ensures kind == FreeValue ==> r == Ok(input.valueFree)
    ensures kind == ListValue ==>
              && (r.Ok? <==> input.valueList in options && group == Some(options[input.valueList]))
              && (r.Ok? ==> r.value == input.valueList)
              && (r.Err? ==> r.error == OptionInvalid)
    ensures kind == OtherKind ==> r == Err(ValueInvalid)
  {
    match kind
    case BooleanValue => Ok(if input.valueBool then "1" else "0")
    case FreeValue => Ok(input.valueFree)
    case ListValue =>
      if input.valueList in options && group == Some(options[input.valueList]) then Ok(input.valueList)
      else Err(OptionInvalid)
    case OtherKind => Err(ValueInvalid)
  }

  /** A form error list after appending msg to `field`'s errors. */
  function AddError(errors: map<string, seq<string>>, field: string, msg: string): (r: map<string, seq<string>>)
    ensures r.Keys == errors.Keys + {field}
    ensures r[field] == (if field in errors then errors[field] else []) + [msg]
    ensures forall k :: k in errors && k != field ==> r[k] == errors[k]
  {
    errors[field := (if field in errors then errors[field] else []) + [msg]]
  }

  datatype Outcome = Saved | Redisplayed | Crashed

  /** A bound attribute or feature form: its error lists and the instance it fills. */
  class ValueForm {
    var errors: map<string, seq<string>>
    var instanceValue: Option<string>
    /** The variant (attribute rows) or product (feature rows) the instance belongs to. */
    var instanceParent: Option<nat>

    constructor (parent: Option<nat>)
      ensures errors == map[] && instanceValue == None && instanceParent == parent
    {
      errors := map[];
      instanceValue := None;
      instanceParent := parent;
    }

    /**
     * form_valid: dispatch on the rule's kind; a rejected value adds its
     * message to the "value" errors and redisplays the form; an accepted one
     * is stored in the instance, which the create views also attach to the
     * parent named in the URL (`parent`; the update views pass None).
     */
    method FormValid(rule: GenAttr, options: map<string, GroupId>, input: FormInput, parent: Option<nat>)
      returns (outcome: Outcome)
      modifies this
      ensures var d := Dispatch(rule.kind, rule.listValue, options, input);
              && (d.Err? ==> outcome == Redisplayed && errors == AddError(old(errors), "value", Message(d.error))
                             && instanceValue == old(instanceValue) && instanceParent == old(instanceParent))
              && (d.Ok? ==> outcome == Saved && errors == old(errors) && instanceValue == Some(d.value)
                            && instanceParent == if parent.Some? then parent else old(instanceParent))
    {
      var d := Dispatch(rule.kind, rule.listValue, options, input);
      if d.Err? {
        errors := AddError(errors, "value", Message(d.error));
        return Redisplayed;
      }
      instanceValue := Some(d.value);
      if parent.Some? {
        instanceParent := parent;
      }
      outcome := Saved;
    }
  }

  /**
   * ProductFinalAttributeCreate.form_valid as written: its two error paths
   * call the superclass of a view it does not inherit from, which raises
   * instead of redisplaying the form.
   */
  function AttributeCreateAsWritten(rule: GenAttr, options: map<string, GroupId>, input: FormInput): (o: Outcome)
    ensures o == Crashed <==> Dispatch(rule.kind, rule.listValue, options, input).Err?
    ensures o != Redisplayed
  {
    if Dispatch(rule.kind, rule.listValue, options, input).Err? then Crashed else Saved
  }

  /**
   * A list value outside the rule's option group, or a rule of a kind other
   * than Free, Boolean or List, crashes that view, while the form should be
   * redisplayed with the matching message.
   */
  lemma AttributeCreateRejectedValueCrashes(rule: GenAttr, options: map<string, GroupId>, input: FormInput)
    requires || rule.kind == OtherKind
             || (rule.kind == ListValue && !(input.valueList in options && rule.listValue == Some(options[input.valueList])))
    ensures AttributeCreateAsWritten(rule, options, input) == Crashed
    ensures Dispatch(rule.kind, rule.listValue, options, input)
            == Err(if rule.kind == OtherKind then ValueInvalid else OptionInvalid)
  {
  }

  // ------------------------------------------------------ image choice

  /** The first position flagged "True", if any. */
  function FirstPrincipal(flags: seq<string>): (r: Option<nat>)
    ensures r.Some? <==> exists i :: 0 <= i < |flags| && flags[i] == "True"
    ensures r.Some? ==> r.value < |flags| && flags[r.value] == "True"
                        && forall j :: 0 <= j < r.value ==> flags[j] != "True"
  {
    if flags == [] then None
    else if flags[0] == "True" then Some(0)
    else
      match FirstPrincipal(flags[1..])
      case None => None
      case Some(i) =>
        assert forall j :: 1 <= j < i + 1 ==> flags[j] == flags[1..][j - 1];
        Some(i + 1)
  }

  /** The positions flagged "True", in increasing order (the list comprehension of the view). */
  method PrincipalPositions(flags: seq<string>) returns (pos: seq<nat>)
    ensures forall k :: 0 <= k < |pos| ==> pos[k] < |flags| && flags[pos[k]] == "True"
    ensures forall i :: 0 <= i < |flags| && flags[i] == "True" ==> i in pos
    ensures forall k, l :: 0 <= k < l < |pos| ==> pos[k] < pos[l]
  {
    pos := [];
    var i := 0;
    while i < |flags|
      invariant 0 <= i <= |flags|
      invariant forall k :: 0 <= k < |pos| ==> pos[k] < i && flags[pos[k]] == "True"
      invariant forall j :: 0 <= j < i && flags[j] == "True" ==> j in pos
      invariant forall k, l :: 0 <= k < l < |pos| ==> pos[k] < pos[l]
    {
      if flags[i] == "True" {
        pos := pos + [i];
      }
      i := i + 1;
    }
  }

  /**
   * The image listed for a variant: its first principal image, else its
   * product's first principal image, else none. Each row's flags and images
   * are parallel lists.
   */
  method ChooseImage(variantFlags: seq<string>, variantImages: seq<string>,
                     productFlags: seq<string>, productImages: seq<string>) returns (image: Option<string>)
    requires |variantFlags| == |variantImages| && |productFlags| == |productImages|
    ensures var v := FirstPrincipal(variantFlags);
            var p := FirstPrincipal(productFlags);
            image == if v.Some? then Some(variantImages[v.value])
                     else if p.Some? then Some(productImages[p.value])
                     else None
  {
    var pos := PrincipalPositions(variantFlags);
    if |pos| == 0 {
      pos := PrincipalPositions(productFlags);
      if |pos| > 0 {
        FirstPosition(productFlags, pos);
        image := Some(productImages[pos[0]]);
      } else {
        image := None;
      }
    } else {
      FirstPosition(variantFlags, pos);
      image := Some(variantImages[pos[0]]);
    }
  }

  /** The increasing list of all flagged positions starts with the first one, and is empty only when none is flagged. */
  lemma FirstPosition(flags: seq<string>, pos: seq<nat>)
    requires forall k :: 0 <= k < |pos| ==> pos[k] < |flags| && flags[pos[k]] == "True"
    requires forall i :: 0 <= i < |flags| && flags[i] == "True" ==> i in pos
    requires forall k, l :: 0 <= k < l < |pos| ==> pos[k] < pos[l]
    ensures |pos| == 0 <==> FirstPrincipal(flags).None?
    ensures |pos| > 0 ==> FirstPrincipal(flags) == Some(pos[0])
  {
    var r := FirstPrincipal(flags);
    if r.Some? {
      assert r.value in pos;
    }
    if |pos| > 0 {
      assert flags[pos[0]] == "True";
      assert r.Some? && r.value in pos;
      assert forall k :: 0 <= k < |pos| ==> pos[0] <= pos[k] by {
        forall k | 0 < k < |pos| ensures pos[0] < pos[k] { }
      }
    }
  }

  // ------------------------------------------------------ search query

  /** A filter over a row of text fields: a word contained in one field, or a combination. */
  datatype Query = Match(field: nat, word: string) | And(left: Query, right: Query) | Or(left: Query, right: Query)

  predicate Contains(text: string, word: string) {
    exists i :: 0 <= i <= |text| && word <= text[i..]
  }

  predicate Eval(q: Query, row: seq<string>) {
    match q
    case Match(f, w) => f < |row| && Contains(row[f], w)
    case And(l, r) => Eval(l, row) && Eval(r, row)
    case Or(l, r) => Eval(l, row) || Eval(r, row)
  }

  /** Field f contains every word. */
  predicate AllWordsIn(row: seq<string>, f: nat, words: seq<string>) {
    f < |row| && forall w :: w in words ==> Contains(row[f], w)
  }

  /** The words joined with `&`, left to right. */
  function AllWords(f: nat, words: seq<string>): Query
    requires |words| > 0
  {
    if |words| == 1 then Match(f, words[0])
    else And(AllWords(f, words[..|words| - 1]), Match(f, words[|words| - 1]))
  }

  /** The fields' word conjunctions joined with `|`, left to right. */
  function AnyField(fields: seq<nat>, words: seq<string>): Query
    requires |fields| > 0 && |words| > 0
  {
    if |fields| == 1 then AllWords(fields[0], words)
    else Or(AnyField(fields[..|fields| - 1], words), AllWords(fields[|fields| - 1], words))
  }

  lemma {:induction false} AllWordsMeaning(f: nat, words: seq<string>, row: seq<string>)
    requires |words| > 0
    ensures Eval(AllWords(f, words), row) <==> AllWordsIn(row, f, words)
  {
    if |words| > 1 {
      var init := words[..|words| - 1];
      AllWordsMeaning(f, init, row);
      assert words == init + [words[|words| - 1]];
      assert forall w :: w in words <==> w in init || w == words[|words| - 1];
    }
  }

  /** A row matches the composed filter exactly when some field contains every word. */
  lemma {:induction false} AnyFieldMeaning(fields: seq<nat>, words: seq<string>, row: seq<string>)
    requires |fields| > 0 && |words| > 0
    ensures Eval(AnyField(fields, words), row) <==> exists i :: 0 <= i < |fields| && AllWordsIn(row, fields[i], words)
  {
    var last := fields[|fields| - 1];
    AllWordsMeaning(last, words, row);
    if |fields| > 1 {
      var init := fields[..|fields| - 1];
      AnyFieldMeaning(init, words, row);
      if Eval(AnyField(fields, words), row) {
        if Eval(AnyField(init, words), row) {
          var i :| 0 <= i < |init| && AllWordsIn(row, init[i], words);
          assert fields[i] == init[i];
        } else {
          assert AllWordsIn(row, fields[|fields| - 1], words);
        }
      } else {
        forall i | 0 <= i < |fields| ensures !AllWordsIn(row, fields[i], words) {
          if i < |init| {
            assert fields[i] == init[i];
          }
        }
      }
    }
  }

  /**
   * The view's nested loops: for each field, `&` the word filters together;
   * `|` the fields together. No words give no filter.
   */
  method ComposeQuery(fields: seq<nat>, words: seq<string>) returns (q: Option<Query>)
    ensures q.None? <==> |fields| == 0 || |words| == 0
    ensures q.Some? ==> q.value == AnyField(fields, words)
  {
    q := None;
    for i := 0 to |fields|
      invariant |words| == 0 || i == 0 ==> q.None?
      invariant |words| > 0 && i > 0 ==> q == Some(AnyField(fields[..i], words))
    {
      var conj: Option<Query> := None;
      for j := 0 to |words|
        invariant j == 0 ==> conj.None?
        invariant j > 0 ==> conj == Some(AllWords(fields[i], words[..j]))
      {
        if conj.Some? {
          conj := Some(And(conj.value, Match(fields[i], words[j])));
        } else {
          conj := Some(Match(fields[i], words[j]));
        }
        assert words[..j + 1][..j] == words[..j];
      }
      if q.Some? {
        q := Some(Or(q.value, conj.value));
      } else {
        q := conj;
      }
      assert fields[..i + 1][..i] == fields[..i];
      assert |words| > 0 ==> words[..|words|] == words;
    }
    assert fields[..|fields|] == fields;
  }

  // ------------------------------------------------------ words of the query

  predicate IsSpace(c: char) {
    c == ' ' || c == '\t' || c == '\n' || c == '\r' || c as int == 11 || c as int == 12 || 28 <= c as int <= 31
  }

  /** The length of the word s starts with. */
  function WordLength(s: string): (n: nat)
    requires |s| > 0 && !IsSpace(s[0])
    ensures 1 <= n <= |s| && (forall i :: 0 <= i < n ==> !IsSpace(s[i])) && (n < |s| ==> IsSpace(s[n]))
  {
    if |s| == 1 || IsSpace(s[1]) then 1
    else 1 + WordLength(s[1..])
  }

  /** str.split() with no separator: the maximal runs of non-space characters. */
  function Words(s: string): (ws: seq<string>)
    ensures forall w :: w in ws ==> |w| > 0 && forall c :: c in w ==> !IsSpace(c)
    decreases |s|
  {
    if s == [] then []
    else if IsSpace(s[0]) then Words(s[1..])
    else
      var n := WordLength(s);
      [s[..n]] + Words(s[n..])
  }

  /** The words joined by single spaces. */
  function Join(ws: seq<string>): string {
    if ws == [] then []
    else if |ws| == 1 then ws[0]
    else ws[0] + " " + Join(ws[1..])
  }

  lemma {:induction false} WordOfJoin(w: string, rest: string)
    requires |w| > 0 && forall c :: c in w ==> !IsSpace(c)
    requires rest == [] || IsSpace(rest[0])
    ensures WordLength(w + rest) == |w|
  {
    if |w| > 1 {
      assert (w + rest)[1..] == w[1..] + rest;
      WordOfJoin(w[1..], rest);
    }
  }

  /** Splitting words joined by spaces gives the words back. */
  lemma {:induction false} WordsOfJoin(ws: seq<string>)
    requires forall w :: w in ws ==> |w| > 0 && forall c :: c in w ==> !IsSpace(c)
    ensures Words(Join(ws)) == ws
  {
    if ws != [] {
      var w := ws[0];
      if |ws| == 1 {
        WordOfJoin(w, []);
        assert w + [] == w;
        assert w[|w|..] == [];
      } else {
        var rest := " " + Join(ws[1..]);
        var s := Join(ws);
        assert s == w + rest;
        WordOfJoin(w, rest);
        assert s[..|w|] == w;
        assert s[|w|..] == rest;
        assert rest[1..] == Join(ws[1..]);
        WordsOfJoin(ws[1..]);
      }
    }
  }
}
