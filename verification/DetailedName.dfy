/** gaction.c: detailed action names, an action name with an optional target value. */
module DetailedName {
  import opened Wrappers

  /** A target: a string, or a value of any other type. */
  datatype Target<V> = Text(text: string) | Other(value: V)

  datatype Parsed<V> = Detailed(name: string, target: Option<Target<V>>) | BadFormat

  // ----- names -----

  predicate NameChar(c: char) {
    'a' <= c <= 'z' || 'A' <= c <= 'Z' || '0' <= c <= '9' || c == '.' || c == '-'
  }

  predicate ValidName(name: string) {
    name != "" && forall i :: 0 <= i < |name| ==> NameChar(name[i])
  }

  /** g_action_name_is_valid */
  method NameIsValid(name: string) returns (valid: bool)
    ensures valid <==> ValidName(name)
    ensures valid <==> name != "" && forall i :: 0 <= i < |name| ==>
      (name[i] in ".-" || '0' <= name[i] <= '9' || 'A' <= name[i] <= 'Z' || 'a' <= name[i] <= 'z')
  {
    var i := 0;
    while i < |name|
      invariant 0 <= i <= |name| && forall j :: 0 <= j < i ==> NameChar(name[j])
    {
      if !NameChar(name[i]) { return false; }
      i := i + 1;
    }
    valid := i > 0;
  }

  predicate Separator(c: char) { c == ':' || c == ' ' || c == '(' || c == ')' }

  /** strcspn (s, ": ()") */
  function BaseLength(s: string): (k: nat)
    ensures k <= |s| && (forall i :: 0 <= i < k ==> !Separator(s[i])) && (k < |s| ==> Separator(s[k]))
  {
    if s == "" || Separator(s[0]) then 0 else 1 + BaseLength(s[1..])
  }

  // ----- printing and parsing -----

  /** g_action_print_detailed_name, given g_variant_print */
  function Print<V>(name: string, target: Option<Target<V>>, print_: Target<V> -> string): string {
    match target
    case None => name
    case Some(t) =>
      if t.Text? && ValidName(t.text) then name + "::" + t.text else name + "(" + print_(t) + ")"
  }

  /** g_action_parse_detailed_name, given g_variant_parse */
  function Parse<V>(s: string, parse: string -> Option<Target<V>>): Parsed<V> {
    if s == "" || s[0] == ' ' then BadFormat
    else ParseTarget(s[..BaseLength(s)], s[BaseLength(s)..], parse)
  }

  /** Its switch on what follows the name. */
  function ParseTarget<V>(name: string, rest: string, parse: string -> Option<Target<V>>): Parsed<V> {
    if rest == "" then Detailed(name, None)
    else match rest[0]
      case ':' =>
        if |rest| < 2 || rest[1] != ':' then BadFormat else Detailed(name, Some(Text(rest[2..])))
      case '(' =>
        if rest[|rest| - 1] != ')' then BadFormat
        else
          var value := parse(rest[1..|rest| - 1]);
          if value.None? then BadFormat else Detailed(name, value)
      case _ => BadFormat
  }

  lemma {:induction false} BaseOfName(name: string, rest: string)
    requires (forall i :: 0 <= i < |name| ==> !Separator(name[i])) && (rest == "" || Separator(rest[0]))
    ensures BaseLength(name + rest) == |name|
    decreases |name|
  {
    if name == "" {
      assert name + rest == rest;
    } else {
      BaseOfName(name[1..], rest);
      assert (name + rest)[1..] == name[1..] + rest;
    }
  }

  /** Some text for a value is put in parentheses behind the name. */
  ghost predicate InParens<V(!new)>(s: string, name: string, target: Target<V>, parse: string -> Option<Target<V>>) {
    exists text :: s == name + ("(" + text + ")") && parse(text) == Some(target)
  }

  /** The three formats, for any name without a separator: only alone does it have to be non-empty. */
  ghost predicate Spells<V(!new)>(s: string, name: string, target: Option<Target<V>>,
                                  parse: string -> Option<Target<V>>) {
    && (forall i :: 0 <= i < |name| ==> name[i] !in ":( )")
    && match target
       case None => s == name != ""
       case Some(t) => (t.Text? && s == name + ("::" + t.text)) || InParens(s, name, t, parse)
  }

  /** The parser accepts exactly these texts, so also names that are not valid, even an empty one. */
  lemma ParseAccepts<V(!new)>(s: string, name: string, target: Option<Target<V>>,
                              parse: string -> Option<Target<V>>)
    ensures Parse(s, parse) == Detailed(name, target) <==> Spells(s, name, target, parse)
  {
    if Parse(s, parse) == Detailed(name, target) { ParsedIsSpelled(s, parse); }
    if Spells(s, name, target, parse) { SpelledIsParsed(s, name, target, parse); }
  }

  lemma ParsedIsSpelled<V(!new)>(s: string, parse: string -> Option<Target<V>>)
    requires Parse(s, parse).Detailed?
    ensures Spells(s, Parse(s, parse).name, Parse(s, parse).target, parse)
  {
    var k := BaseLength(s);
    assert s == s[..k] + s[k..];
    TargetIsSpelled(s[..k], s[k..], parse);
  }

  lemma TargetIsSpelled<V(!new)>(name: string, rest: string, parse: string -> Option<Target<V>>)
    requires ParseTarget(name, rest, parse).Detailed? && name + rest != ""
    requires forall i :: 0 <= i < |name| ==> !Separator(name[i])
    ensures Spells(name + rest, name, ParseTarget(name, rest, parse).target, parse)
  {
    if rest == "" {
      assert name + rest == name;
    } else if rest[0] == ':' {
      assert rest == "::" + rest[2..];
    } else {
      var text := rest[1..|rest| - 1];
      assert rest == "(" + text + ")";
      assert InParens(name + rest, name, parse(text).value, parse);
    }
  }

  lemma SpelledIsParsed<V(!new)>(s: string, name: string, target: Option<Target<V>>,
                                 parse: string -> Option<Target<V>>)
    requires Spells(s, name, target, parse)
    ensures Parse(s, parse) == Detailed(name, target)
  {
    var rest := TargetIsParsed(s, name, target, parse);
    BaseOfName(name, rest);
    assert s[..|name|] == name && s[|name|..] == rest;
  }

  lemma TargetIsParsed<V(!new)>(s: string, name: string, target: Option<Target<V>>,
                                parse: string -> Option<Target<V>>) returns (rest: string)
    requires Spells(s, name, target, parse)
    ensures s == name + rest && (rest == "" ==> name != "") && (rest != "" ==> rest[0] in ":(")
    ensures ParseTarget(name, rest, parse) == Detailed(name, target)
  {
    if target.None? {
      rest := "";
    } else if target.value.Text? && s == name + ("::" + target.value.text) {
      rest := "::" + target.value.text;
    } else {
      var text :| s == name + ("(" + text + ")") && parse(text) == target;
      rest := "(" + text + ")";
      assert rest[1..|rest| - 1] == text;
    }
  }

  /** Printing then parsing gives the name and target back, in all three formats, for every way of
      printing values that can be parsed back. */
  lemma RoundTrip<V(!new)>(name: string, target: Option<Target<V>>,
                           print_: Target<V> -> string, parse: string -> Option<Target<V>>)
    requires ValidName(name) && (target.Some? ==> parse(print_(target.value)) == target)
    ensures Parse(Print(name, target, print_), parse) == Detailed(name, target)
  {
    PrintSpells(name, target, print_, parse);
    SpelledIsParsed(Print(name, target, print_), name, target, parse);
  }

  lemma PrintSpells<V(!new)>(name: string, target: Option<Target<V>>,
                             print_: Target<V> -> string, parse: string -> Option<Target<V>>)
    requires ValidName(name) && (target.Some? ==> parse(print_(target.value)) == target)
    ensures Spells(Print(name, target, print_), name, target, parse)
  {
    if target.Some? {
      var t := target.value;
      if t.Text? && ValidName(t.text) {
        assert name + "::" + t.text == name + ("::" + t.text);
      } else {
        assert name + "(" + print_(t) + ")" == name + ("(" + print_(t) + ")");
      }
    }
  }

  /** The format that is printed: bare without a target, with "::" for a string target that could be a
      name itself, and in parentheses for any other. */
  lemma FormatPrinted<V>(name: string, t: Target<V>, print_: Target<V> -> string)
    ensures Print(name, None, print_) == name
    ensures
      var s := Print(name, Some(t), print_);
      && |s| > |name| && s[..|name|] == name
      && (s[|name|] == ':' <==> t.Text? && t.text != "" && forall i :: 0 <= i < |t.text| ==> NameChar(t.text[i]))
      && (s[|name|] == ':' ==> s[|name|..] == "::" + t.text)
      && (s[|name|] != ':' ==> s[|name|..] == "(" + print_(t) + ")")
  {
    if t.Text? && ValidName(t.text) {
      assert Print(name, Some(t), print_) == name + ("::" + t.text);
    } else {
      assert Print(name, Some(t), print_) == name + ("(" + print_(t) + ")");
    }
  }

  /** So no two actions share a detailed name. */
  lemma PrintInjective<V(!new)>(n1: string, t1: Option<Target<V>>, n2: string, t2: Option<Target<V>>,
                                print_: Target<V> -> string, parse: string -> Option<Target<V>>)
    requires ValidName(n1) && ValidName(n2) && forall t :: parse(print_(t)) == Some(t)
    requires Print(n1, t1, print_) == Print(n2, t2, print_)
    ensures n1 == n2 && t1 == t2
  {
    RoundTrip(n1, t1, print_, parse);
    RoundTrip(n2, t2, print_, parse);
  }

  /** Printing what was parsed is a normal form: it parses to the same again. */
  lemma PrintNormalises<V(!new)>(s: string, print_: Target<V> -> string, parse: string -> Option<Target<V>>)
    requires Parse(s, parse).Detailed? && ValidName(Parse(s, parse).name) && forall t :: parse(print_(t)) == Some(t)
    ensures Parse(Print(Parse(s, parse).name, Parse(s, parse).target, print_), parse) == Parse(s, parse)
  {
    RoundTrip(Parse(s, parse).name, Parse(s, parse).target, print_, parse);
  }
}
