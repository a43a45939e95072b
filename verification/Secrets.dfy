/** Secret fields: the value cache, the values of a module and the redactor. */
module Secrets {
  import opened Outcomes

  const MASK := "***"

  /** Leftmost, non-overlapping replacement of `value` by the mask. */
  function Mask(text: string, value: string): string
    requires value != ""
  {
    if |text| < |value| then text
    else if value <= text then MASK + Mask(text[|value|..], value)
    else [text[0]] + Mask(text[1..], value)
  }

  function MaskAll(text: string, values: seq<string>): string
    requires forall i | 0 <= i < |values| :: values[i] != ""
  {
    if values == [] then text
    else
      var last := values[|values| - 1];
      Mask(MaskAll(text, values[..|values| - 1]), last)
  }

  ghost predicate At(text: string, i: nat, value: string) {
    i + |value| <= |text| && text[i..i + |value|] == value
  }

  ghost predicate Contains(text: string, value: string) {
    exists i: nat :: At(text, i, value)
  }

  /** A value the mask cannot be mistaken for a part of: it neither begins nor ends
      with a star and has no three stars in a row. */
  ghost predicate Maskable(value: string) {
    value != "" && value[0] != '*' && value[|value| - 1] != '*' && !Contains(value, MASK)
  }

  lemma StarlessIsMaskable(value: string)
    requires value != "" && '*' !in value
    ensures Maskable(value)
  {
    forall i: nat
      ensures !At(value, i, MASK)
    {
      if i + 3 <= |value| {
        assert value[i..i + 3][0] == value[i] && value[i] in value;
      }
    }
  }

  // ---------- masking hides ----------

  /** The rest of a maskable value. */
  ghost predicate Tail(value: string) {
    value == "" || (value[|value| - 1] != '*' && !Contains(value, MASK))
  }

  lemma TailOfTail(value: string)
    requires value != "" && Tail(value)
    ensures Tail(value[1..])
  {
    if value[1..] != "" && Contains(value[1..], MASK) {
      var i: nat :| At(value[1..], i, MASK);
      assert value[1..][i..i + 3] == value[i + 1..i + 1 + 3];
      assert At(value, i + 1, MASK);
    }
  }

  /** What begins a masked text and is not part of the mask begins the text itself. */
  lemma {:induction false} PrefixSurvives(text: string, value: string, w: string)
    requires value != "" && Tail(w) && w <= Mask(text, value)
    ensures w <= text
    decreases |text|
  {
    if w != "" && |value| <= |text| {
      if value <= text {
        NotTheMask(w, Mask(text[|value|..], value));
      } else {
        assert w[1..] <= Mask(text[1..], value);
        TailOfTail(w);
        PrefixSurvives(text[1..], value, w[1..]);
        assert w == [w[0]] + w[1..] && text == [text[0]] + text[1..];
      }
    }
  }

  lemma NotTheMask(w: string, rest: string)
    requires w != "" && Tail(w)
    ensures !(w <= MASK + rest)
  {
    if |w| >= 3 {
      assert !At(w, 0, MASK);
      assert (MASK + rest)[..3] == MASK;
    } else {
      assert (MASK + rest)[|w| - 1] == '*';
    }
  }

  /** An occurrence in a text that starts with the mask lies behind the mask. */
  lemma BehindTheMask(rest: string, other: string, i: nat)
    requires other != "" && other[0] != '*' && At(MASK + rest, i, other)
    ensures i >= 3 && At(rest, i - 3, other)
  {
    assert (MASK + rest)[i] == other[0];
    if i >= 3 {
      assert (MASK + rest)[i..i + |other|] == rest[i - 3..i - 3 + |other|];
    }
  }

  lemma BehindTheFirst(c: char, rest: string, other: string, i: nat)
    requires i > 0 && At([c] + rest, i, other)
    ensures At(rest, i - 1, other)
  {
    assert ([c] + rest)[i..i + |other|] == rest[i - 1..i - 1 + |other|];
  }

  /** Masking one value never brings out another: what the result contains, the text contained. */
  lemma {:induction false} MaskCreatesNothing(text: string, value: string, other: string, i: nat)
    requires value != "" && Maskable(other) && At(Mask(text, value), i, other)
    ensures Contains(text, other)
    decreases |text|
  {
    if |text| < |value| {
    } else if value <= text {
      BehindTheMask(Mask(text[|value|..], value), other, i);
      MaskCreatesNothing(text[|value|..], value, other, i - 3);
      Embed(text, |value|, other);
    } else if i == 0 {
      PrefixSurvives(text, value, other);
      assert At(text, 0, other);
    } else {
      BehindTheFirst(text[0], Mask(text[1..], value), other, i);
      MaskCreatesNothing(text[1..], value, other, i - 1);
      Embed(text, 1, other);
    }
  }

  lemma Embed(text: string, from: nat, other: string)
    requires from <= |text| && Contains(text[from..], other)
    ensures Contains(text, other)
  {
    var j: nat :| At(text[from..], j, other);
    assert text[from..][j..j + |other|] == text[from + j..from + j + |other|];
    assert At(text, from + j, other);
  }

  /** A masked value is gone. */
  lemma {:induction false} MaskRemoves(text: string, value: string, i: nat)
    requires Maskable(value)
    ensures !At(Mask(text, value), i, value)
    decreases |text|
  {
    if At(Mask(text, value), i, value) {
      if |text| < |value| {
      } else if value <= text {
        BehindTheMask(Mask(text[|value|..], value), value, i);
        MaskRemoves(text[|value|..], value, i - 3);
      } else if i == 0 {
        PrefixSurvives(text, value, value);
      } else {
        BehindTheFirst(text[0], Mask(text[1..], value), value, i);
        MaskRemoves(text[1..], value, i - 1);
      }
    }
  }

  /** The redacted text contains none of the maskable values, whatever the others and whatever
      the order. */
  lemma {:induction false} RedactionIsComplete(text: string, values: seq<string>, value: string)
    requires forall i | 0 <= i < |values| :: values[i] != ""
    requires value in values && Maskable(value)
    ensures !Contains(MaskAll(text, values), value)
    decreases |values|
  {
    var last := values[|values| - 1];
    var before := values[..|values| - 1];
    var sofar := MaskAll(text, before);
    assert MaskAll(text, values) == Mask(sofar, last);
    if Contains(Mask(sofar, last), value) {
      var i: nat :| At(Mask(sofar, last), i, value);
      if value == last {
        MaskRemoves(sofar, last, i);
      } else {
        MaskCreatesNothing(sofar, last, value, i);
        assert value in before;
        RedactionIsComplete(text, before, value);
      }
    }
  }

  // ---------- exactly when ----------

  ghost predicate Leaks(value: string)
    requires value != ""
  {
    exists text :: Contains(Mask(text, value), value)
  }

  /** Some text and some list of values with this one in it show the value after redaction. */
  ghost predicate LeaksFromSome(value: string) {
    exists text, values: seq<string> :: LeaksFrom(text, values, value)
  }

  ghost predicate LeaksFrom(text: string, values: seq<string>, value: string) {
    && value in values && (forall i | 0 <= i < |values| :: values[i] != "")
    && Contains(MaskAll(text, values), value)
  }

  /** A value is gone from every redacted text, whatever list it is in, if and only if it is maskable. */
  lemma RedactionIsCompleteIffMaskable(value: string)
    requires value != ""
    ensures LeaksFromSome(value) <==> !Maskable(value)
  {
    if LeaksFromSome(value) {
      var text, values: seq<string> :| LeaksFrom(text, values, value);
      if Maskable(value) {
        RedactionIsComplete(text, values, value);
      }
    }
    MaskingIsCompleteIffMaskable(value);
    if Leaks(value) {
      var text :| Contains(Mask(text, value), value);
      var only := [value];
      assert only[..|only| - 1] == [] && MaskAll(text, []) == text;
      assert LeaksFrom(text, only, value);
    }
  }

  lemma MaskHere(text: string, value: string)
    requires value != "" && At(text, 0, value)
    ensures Mask(text, value) == MASK + Mask(text[|value|..], value)
  {
  }

  lemma MaskLater(text: string, value: string)
    requires value != "" && |value| <= |text| && !At(text, 0, value)
    ensures Mask(text, value) == [text[0]] + Mask(text[1..], value)
  {
    AtStart(text, value);
  }

  /** The first occurrence becomes the mask; what is before it stays, and what is behind it is
      masked in turn. */
  lemma {:induction false} FirstMatch(text: string, value: string, n: nat)
    requires value != "" && At(text, n, value) && forall j: nat | j < n :: !At(text, j, value)
    ensures Mask(text, value) == text[..n] + MASK + Mask(text[n + |value|..], value)
    decreases n
  {
    hide At, Mask;
    AtFits(text, n, value);
    if n > 0 {
      var rest, tail := text[1..], Mask(text[n + |value|..], value);
      ShiftOne(text, value, n - 1);
      forall j: nat | j < n - 1
        ensures !At(rest, j, value)
      {
        ShiftOne(text, value, j);
      }
      MaskLater(text, value);
      FirstMatch(rest, value, n - 1);
      assert rest[n - 1 + |value|..] == text[n + |value|..];
      assert text[..n] == [text[0]] + rest[..n - 1];
      Shift(text[0], rest[..n - 1], MASK, tail);
    } else {
      MaskHere(text, value);
      assert text[..n] + MASK == MASK;
    }
  }

  /** A text without the value stays as it is; `FirstMatch` says what becomes of any other. */
  lemma {:induction false} MaskLeavesOthers(text: string, value: string)
    requires value != "" && !Contains(text, value)
    ensures Mask(text, value) == text
  {
    if |value| <= |text| {
      AtStart(text, value);
      assert !At(text, 0, value);
      if Contains(text[1..], value) {
        Embed(text, 1, value);
      }
      MaskLeavesOthers(text[1..], value);
      assert text == [text[0]] + text[1..];
    }
  }

  lemma AtFits(text: string, n: nat, value: string)
    ensures At(text, n, value) ==> n + |value| <= |text|
  {
  }

  lemma AtStart(text: string, value: string)
    ensures At(text, 0, value) <==> value <= text
  {
  }

  lemma Shift(c: char, a: string, b: string, d: string)
    ensures [c] + a + b + d == [c] + (a + b + d)
  {
  }

  lemma ShiftOne(text: string, value: string, j: nat)
    requires text != ""
    ensures At(text[1..], j, value) <==> At(text, j + 1, value)
  {
    if j + 1 + |value| <= |text| {
      assert text[1..][j..j + |value|] == text[j + 1..j + 1 + |value|];
    }
  }

  function Stars(n: nat): (s: string)
    ensures |s| == n && forall i | 0 <= i < n :: s[i] == '*'
  {
    seq(n, i => '*')
  }

  /** A text that a mask turns back into the value: `before`, the value, `after`. */
  lemma Leaking(value: string, before: string, after: string)
    requires value != "" && |after| < |value|
    requires forall j: nat | j < |before| :: !At(before + value + after, j, value)
    requires Contains(before + MASK + after, value)
    ensures Leaks(value)
  {
    var text := before + value + after;
    assert text[|before|..|before| + |value|] == value;
    FirstMatch(text, value, |before|);
    assert text[..|before|] == before && text[|before| + |value|..] == after;
    assert Mask(text, value) == before + MASK + after;
  }

  /** After at most three stars the mask itself supplies them all. */
  lemma MaskSupplies(value: string, k: nat, rest: string)
    requires 1 <= k <= 3 && value == Stars(k) + rest
    ensures At(MASK + rest, 3 - k, value)
  {
    var shown := MASK + rest;
    forall i | 0 <= i < |value|
      ensures shown[3 - k + i] == value[i]
    {
    }
    assert shown[3 - k..3 - k + |value|] == value;
  }

  /** Of more than three stars the mask supplies the first three. */
  lemma MaskBegins(value: string, k: nat, rest: string)
    requires 3 < k && value == Stars(k) + rest
    ensures At(MASK + (Stars(k - 3) + rest), 0, value)
  {
    var shown := MASK + (Stars(k - 3) + rest);
    forall i | 0 <= i < |value|
      ensures shown[i] == value[i]
    {
    }
    assert shown[0..|value|] == value;
  }

  lemma LeadingStarLeaks(value: string)
    requires value != "" && value[0] == '*'
    ensures Leaks(value)
  {
    hide At, Leaks, Stars;
    var k := LeadingStars(value);
    var rest := value[k..];
    assert [] + MASK == MASK;
    if k <= 3 {
      MaskSupplies(value, k, rest);
      Leaking(value, [], rest);
    } else {
      MaskBegins(value, k, rest);
      Leaking(value, [], Stars(k - 3) + rest);
    }
  }

  lemma LeadingStars(value: string) returns (k: nat)
    requires value != "" && value[0] == '*'
    ensures 1 <= k <= |value| && value == Stars(k) + value[k..]
  {
    k := 1;
    while k < |value| && value[k] == '*'
      invariant 1 <= k <= |value|
      invariant forall i | 0 <= i < k :: value[i] == '*'
    {
      k := k + 1;
    }
  }

  /** The value standing `j` into the text before it has the text's character at its start,
      and its own at the text's length. */
  lemma MatchAbove(w: string, value: string, after: string, j: nat)
    requires j < |w| < |value| && At(w + value + after, j, value)
    ensures value[0] == w[j] && value[|w|] == value[j]
  {
    var text := w + value + after;
    assert text[j..j + |value|][0] == text[j] == w[j];
    assert text[j..j + |value|][|w|] == text[j + |w|] == value[j];
  }

  lemma TrailingStarLeaks(value: string)
    requires value != "" && value[0] != '*' && value[|value| - 1] == '*'
    ensures Leaks(value)
  {
    var n := |value| - 1;
    while value[n - 1] == '*'
      invariant 0 < n < |value|
      invariant forall i | n <= i < |value| :: value[i] == '*'
      decreases n
    {
      n := n - 1;
    }
    var k, w := |value| - n, value[..n];
    var after := Stars(if k <= 3 then 0 else k - 3);
    var text := w + value + after;
    forall j: nat | j < |w|
      ensures !At(text, j, value)
    {
      if At(text, j, value) {
        MatchAbove(w, value, after, j);
      }
    }
    assert (w + MASK + after)[0..|value|] == value;
    assert At(w + MASK + after, 0, value);
    Leaking(value, w, after);
  }

  lemma InnerMaskLeaks(value: string)
    requires value != "" && value[0] != '*' && value[|value| - 1] != '*' && Contains(value, MASK)
    ensures Leaks(value)
  {
    var i := FirstMask(value);
    var p, q := value[..i], value[i + 3..];
    var text := p + value + q;
    forall j: nat | j < i
      ensures !At(text, j, value)
    {
      if At(text, j, value) {
        MaskAbove(p, value, q, i, j);
      }
    }
    assert value == p + MASK + q;
    assert (p + MASK + q)[0..|value|] == value;
    assert At(p + MASK + q, 0, value);
    Leaking(value, p, q);
  }

  /** The value standing `j` to the left of itself repeats its mask `j` further left. */
  lemma MaskAbove(p: string, value: string, q: string, i: nat, j: nat)
    requires |p| == i && j < i && At(value, i, MASK) && At(p + value + q, j, value)
    ensures At(value, j, MASK)
  {
    var text := p + value + q;
    forall k | 0 <= k < 3
      ensures value[j + k] == MASK[k]
    {
      assert value[i + k] == text[j..j + |value|][i + k] == text[i + (j + k)];
      assert value[i..i + 3][k] == value[i + k];
    }
    assert value[j..j + 3] == MASK;
  }

  lemma FirstMask(value: string) returns (i: nat)
    requires Contains(value, MASK)
    ensures At(value, i, MASK) && forall j: nat | j < i :: !At(value, j, MASK)
  {
    i := 0;
    while !At(value, i, MASK)
      invariant forall j: nat | j < i :: !At(value, j, MASK)
      invariant i <= |value|
      decreases |value| - i
    {
      var k: nat :| At(value, k, MASK);
      assert i < k;
      i := i + 1;
    }
  }

  /** Masking a value by itself is complete exactly for the maskable values: for any other
      some text still shows the value after it was masked. */
  lemma MaskingIsCompleteIffMaskable(value: string)
    requires value != ""
    ensures Leaks(value) <==> !Maskable(value)
  {
    if Maskable(value) {
      if Leaks(value) {
        var text :| Contains(Mask(text, value), value);
        var i: nat :| At(Mask(text, value), i, value);
        MaskRemoves(text, value, i);
      }
    } else if value[0] == '*' {
      LeadingStarLeaks(value);
    } else if value[|value| - 1] == '*' {
      TrailingStarLeaks(value);
    } else {
      InnerMaskLeaks(value);
    }
  }

  // ---------- the service ----------

  /** A declared secret field and the environment variable it is injected as. */
  datatype Field = Field(name: string, env: string)
  /** A module of the roster with its fields in name order. */
  datatype Manifest = Manifest(id: string, fields: seq<Field>)

  function Key(module_: string, name: string): string {
    module_ + "/" + name
  }

  /** Values of different fields are kept apart for modules whose ids have no slash. */
  lemma KeysApart(id: string, name: string, other: string, field: string)
    requires '/' !in id && '/' !in other
    ensures Key(id, name) == Key(other, field) <==> id == other && name == field
  {
    var one, two := Key(id, name), Key(other, field);
    if one == two {
      assert one[|id|] == '/' && two[|other|] == '/';
      assert forall i | 0 <= i < |id| :: one[i] == id[i];
      assert forall i | 0 <= i < |other| :: two[i] == other[i];
      assert id == one[..|id|] && other == two[..|other|];
      assert name == one[|id| + 1..] && field == two[|other| + 1..];
    }
  }

  /** The fields of the first module with this id, none when there is no such module. */
  function FieldsOf(roster: seq<Manifest>, id: string): seq<Field> {
    if roster == [] then []
    else if roster[0].id == id then roster[0].fields
    else FieldsOf(roster[1..], id)
  }

  /** Of several modules with one id the first counts, and a module that is not there has no fields. */
  lemma {:induction false} FirstOfItsId(roster: seq<Manifest>, id: string, i: nat)
    requires i <= |roster| && forall j | 0 <= j < i :: roster[j].id != id
    ensures FieldsOf(roster, id) == FieldsOf(roster[i..], id)
    ensures i < |roster| && roster[i].id == id ==> FieldsOf(roster, id) == roster[i].fields
    ensures i == |roster| ==> FieldsOf(roster, id) == []
  {
    if i > 0 {
      assert roster[0].id != id;
      FirstOfItsId(roster[1..], id, i - 1);
      assert roster[1..][i - 1..] == roster[i..];
    } else {
      assert roster[0..] == roster;
    }
  }

  /** The configured, non-empty values of these fields, in field order. */
  function Configured(values: map<string, string>, id: string, fields: seq<Field>): (out: seq<(string, string)>)
    ensures forall i | 0 <= i < |out| :: out[i].1 != ""
  {
    if fields == [] then []
    else
      var last := fields[|fields| - 1];
      var before := Configured(values, id, fields[..|fields| - 1]);
      if Key(id, last.name) in values && values[Key(id, last.name)] != ""
      then before + [(last.env, values[Key(id, last.name)])]
      else before
  }

  /** A declared field of this variable has this value, and the value is not empty. */
  ghost predicate Holds(values: map<string, string>, id: string, fields: seq<Field>, env: string, v: string) {
    v != "" && exists i :: 0 <= i < |fields| && FieldHolds(values, id, fields[i], env, v)
  }

  predicate FieldHolds(values: map<string, string>, id: string, field: Field, env: string, v: string) {
    field.env == env && Key(id, field.name) in values && values[Key(id, field.name)] == v
  }

  lemma {:induction false} ConfiguredIff(values: map<string, string>, id: string, fields: seq<Field>, env: string,
                                         v: string)
    ensures (env, v) in Configured(values, id, fields) <==> Holds(values, id, fields, env, v)
  {
    if fields != [] {
      var n := |fields| - 1;
      ConfiguredIff(values, id, fields[..n], env, v);
      if Holds(values, id, fields[..n], env, v) {
        var i :| 0 <= i < n && FieldHolds(values, id, fields[..n][i], env, v);
        assert FieldHolds(values, id, fields[i], env, v);
      }
      if Holds(values, id, fields, env, v) {
        var i :| 0 <= i < |fields| && FieldHolds(values, id, fields[i], env, v);
        assert i < n ==> FieldHolds(values, id, fields[..n][i], env, v);
      }
    }
  }

  /** Setting or clearing a field of one module changes no value of another module. */
  lemma {:induction false} OthersKeepValues(values: map<string, string>, after: map<string, string>, id: string,
                                            name: string, other: string, fields: seq<Field>)
    requires '/' !in id && '/' !in other && id != other
    requires after - {Key(id, name)} == values - {Key(id, name)}
    ensures Configured(after, other, fields) == Configured(values, other, fields)
  {
    if fields != [] {
      var last := fields[|fields| - 1];
      OthersKeepValues(values, after, id, name, other, fields[..|fields| - 1]);
      KeysApart(id, name, other, last.name);
      var key := Key(other, last.name);
      assert key in after <==> key in after - {Key(id, name)};
      assert key in values <==> key in values - {Key(id, name)};
    }
  }

  ghost predicate HeldByOther(values: map<string, string>, id: string, fields: seq<Field>, name: string, env: string,
                              v: string)
  {
    exists j :: 0 <= j < |fields| && fields[j].name != name && FieldHolds(values, id, fields[j], env, v)
  }

  /** A value that was set is served under its field's variable; one that was cleared is not, unless
      another field of the module has the same variable and value. */
  lemma SetIsServed(values: map<string, string>, id: string, fields: seq<Field>, i: nat, value: string)
    requires '/' !in id && i < |fields| && value != ""
    ensures var key := Key(id, fields[i].name);
      && (fields[i].env, value) in Configured(values[key := value], id, fields)
      && forall env, v | (env, v) in Configured(values - {key}, id, fields) ::
           HeldByOther(values, id, fields, fields[i].name, env, v)
  {
    var key := Key(id, fields[i].name);
    assert FieldHolds(values[key := value], id, fields[i], fields[i].env, value);
    ConfiguredIff(values[key := value], id, fields, fields[i].env, value);
    forall env, v | (env, v) in Configured(values - {key}, id, fields)
      ensures HeldByOther(values, id, fields, fields[i].name, env, v)
    {
      ConfiguredIff(values - {key}, id, fields, env, v);
      var j :| 0 <= j < |fields| && FieldHolds(values - {key}, id, fields[j], env, v);
      KeysApart(id, fields[i].name, id, fields[j].name);
      assert FieldHolds(values, id, fields[j], env, v);
    }
  }

  function ValuesOf(pairs: seq<(string, string)>): (vs: seq<string>)
    ensures |vs| == |pairs| && forall i | 0 <= i < |vs| :: vs[i] == pairs[i].1
  {
    seq(|pairs|, i requires 0 <= i < |pairs| => pairs[i].1)
  }

  ghost predicate Declared(roster: seq<Manifest>, id: string, name: string) {
    exists i :: 0 <= i < |FieldsOf(roster, id)| && FieldsOf(roster, id)[i].name == name
  }

  class Service {
    var values: map<string, string>
    var saved: map<string, string>

    method ModuleValues(roster: seq<Manifest>, id: string) returns (out: seq<(string, string)>)
      ensures out == Configured(values, id, FieldsOf(roster, id))
      ensures forall env, v :: (env, v) in out <==> Holds(values, id, FieldsOf(roster, id), env, v)
    {
      var fields := FieldsOf(roster, id);
      out := [];
      for i := 0 to |fields|
        invariant out == Configured(values, id, fields[..i])
      {
        assert fields[..i + 1][..i] == fields[..i];
        var key := Key(id, fields[i].name);
        if key in values && values[key] != "" {
          out := out + [(fields[i].env, values[key])];
        }
      }
      assert fields[..|fields|] == fields;
      forall env, v
        ensures (env, v) in out <==> Holds(values, id, FieldsOf(roster, id), env, v)
      {
        ConfiguredIff(values, id, fields, env, v);
      }
    }

    /** Masks the module's configured values one after the other. None that is maskable is
        left in the result. */
    method Redact(roster: seq<Manifest>, id: string, text: string) returns (out: string)
      ensures var vs := ValuesOf(Configured(values, id, FieldsOf(roster, id)));
        && out == MaskAll(text, vs)
        && forall i | 0 <= i < |vs| && Maskable(vs[i]) :: !Contains(out, vs[i])
    {
      var pairs := ModuleValues(roster, id);
      ghost var vs := ValuesOf(pairs);
      out := text;
      for i := 0 to |pairs|
        invariant out == MaskAll(text, vs[..i])
      {
        assert vs[..i + 1][..i] == vs[..i];
        out := Mask(out, pairs[i].1);
      }
      assert vs[..|vs|] == vs;
      forall i | 0 <= i < |vs| && Maskable(vs[i])
        ensures !Contains(out, vs[i])
      {
        RedactionIsComplete(text, vs, vs[i]);
      }
    }

    /** Sets a declared field: the cache changes first, then the whole table is saved. */
    method Set(roster: seq<Manifest>, id: string, name: string, value: string) returns (r: Result<()>)
      modifies this
      ensures !Declared(roster, id, name) ==> r.Err? && values == old(values) && saved == old(saved)
      ensures Declared(roster, id, name) ==>
        && values == old(values)[Key(id, name) := value]
        && (r.Ok? ==> saved == values) && (r.Err? ==> saved == old(saved))
    {
      var known := Locate(roster, id, name);
      if !known {
        return Err(Rejected(NotDeclared));
      }
      values := values[Key(id, name) := value];
      r := Persist();
    }

    method Clear(roster: seq<Manifest>, id: string, name: string) returns (r: Result<()>)
      modifies this
      ensures !Declared(roster, id, name) ==> r.Err? && values == old(values) && saved == old(saved)
      ensures Declared(roster, id, name) ==>
        && values == old(values) - {Key(id, name)}
        && (r.Ok? ==> saved == values) && (r.Err? ==> saved == old(saved))
    {
      var known := Locate(roster, id, name);
      if !known {
        return Err(Rejected(NotDeclared));
      }
      values := values - {Key(id, name)};
      r := Persist();
    }

    method Locate(roster: seq<Manifest>, id: string, name: string) returns (known: bool)
      ensures known <==> Declared(roster, id, name)
    {
      var fields := FieldsOf(roster, id);
      for i := 0 to |fields|
        invariant forall j | 0 <= j < i :: fields[j].name != name
      {
        if fields[i].name == name {
          return true;
        }
      }
      return false;
    }

    method Persist() returns (r: Result<()>)
      modifies this`saved
      ensures r.Ok? ==> saved == values
      ensures r.Err? ==> saved == old(saved)
    {
      if * {
        return Err(PortFailure);
      }
      saved := values;
      return Ok(());
    }
  }
}
