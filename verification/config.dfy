/**
 * todo.cfg and the `$VAR` references in its values (`parse_config` and
 * `resolve` in trunk/Punch.py). A line defines `name` and `value`: the name
 * runs up to the first `=` or space, the value is what follows with leading
 * `:`, `=` and spaces and the surrounding double quotes removed. Blank lines
 * and lines starting with `#` define nothing; a later definition of a name
 * replaces an earlier one.
 */
module Config {
  import opened Wrappers
  import opened Errors
  import opened PyText

  datatype Definition = Definition(name: string, value: string)

  /** `found`: the least of `find('=')`, `find(' ')` and the length, ignoring the -1s. */
  function NameEnd(s: string): (k: nat)
    ensures k <= |s|
    ensures forall i :: 0 <= i < k ==> s[i] != '=' && s[i] != ' '
    ensures k < |s| ==> s[k] == '=' || s[k] == ' '
  {
    var eq, sp := Find(s, '='), Find(s, ' ');
    var m := if eq != -1 && eq < |s| then eq else |s|;
    var m := if sp != -1 && sp < m then sp else m;
    assert forall i :: 0 <= i < m ==> s[i] != '=' && s[i] != ' ' by {
      FindSpec(s, '=');
      FindSpec(s, ' ');
    }
    m
  }

  /** One line of todo.cfg, as the loop body of `parse_config` reads it. */
  function ParseConfigLine(line: string): (r: Option<Definition>)
    ensures r.None? <==> Strip(line) == [] || Strip(line)[0] == '#'
  {
    var def := Strip(line);
    if |def| == 0 || def[0] == '#' then None
    else
      var found := NameEnd(def);
      var name := RStrip(def[..found]);
      var value := RStrip(LStripChars(def[found..], ":= "));
      Some(Definition(name, StripChars(value, "\"")))
  }

  /** The line that writes `name="value"`. */
  function QuotedLine(name: string, value: string): string {
    name + "=\"" + value + "\"\n"
  }

  /** A name a definition can give: no space or `=` in it, not starting a comment. */
  predicate GoodName(name: string) {
    name != [] && name[0] != '#' && forall i :: 0 <= i < |name| ==> !IsSpace(name[i]) && name[i] != '='
  }

  /** A value that survives quoting: one line, no quote at either end. */
  predicate GoodValue(value: string) {
    '\n' !in value && (value == [] || (value[0] != '"' && value[|value| - 1] != '"'))
  }

  /** A line `name="value"` defines `name` as `value`. */
  lemma QuotedLineParses(name: string, value: string)
    requires GoodName(name) && GoodValue(value)
    ensures ParseConfigLine(QuotedLine(name, value)) == Some(Definition(name, value))
  {
    var q := ['"'] + value + ['"'];
    var def := name + ['='] + q;
    QuotedLineStrip(name, value);
    assert NameEnd(def) == |name| by {
      assert def[..|name|] == name;
      assert def[|name|] == '=';
    }
    assert def[..|name|] == name && def[|name|..] == ['='] + q;
    assert RStrip(name) == name;
    LStripAfterEquals(q);
    assert RStrip(q) == q;
    QuotesStrip(value);
  }

  lemma QuotedLineStrip(name: string, value: string)
    requires GoodName(name) && GoodValue(value)
    ensures Strip(QuotedLine(name, value)) == name + ['='] + (['"'] + value + ['"'])
  {
    var def := name + ['='] + (['"'] + value + ['"']);
    assert QuotedLine(name, value) == def + "\n";
    assert def[0] == name[0] && def[|def| - 1] == '"';
    StripUnpadded(def);
  }

  /** `lstrip(":= ")` drops the `=` before a quoted value and stops at the quote. */
  lemma LStripAfterEquals(q: string)
    requires q != [] && q[0] == '"'
    ensures LStripChars(['='] + q, ":= ") == q
  {
    assert '=' in ":= " && '"' !in ":= ";
    LStripCharsDrop('=', q, ":= ");
    LStripCharsStop(q, ":= ");
  }

  lemma LStripCharsDrop(c: char, s: string, chars: string)
    requires c in chars
    ensures LStripChars([c] + s, chars) == LStripChars(s, chars)
  {
    assert ([c] + s)[1..] == s;
  }

  lemma LStripCharsStop(s: string, chars: string)
    requires s != [] && s[0] !in chars
    ensures LStripChars(s, chars) == s
  {
  }

  lemma QuotesStrip(value: string)
    requires GoodValue(value)
    ensures StripChars(['"'] + value + ['"'], "\"") == value
  {
    if value == [] {
      EmptyQuotesStrip();
      assert ['"'] + value + ['"'] == ['"', '"'];
    } else {
      LStripQuote(value);
      RStripQuote(value);
    }
  }

  lemma EmptyQuotesStrip()
    ensures StripChars(['"', '"'], "\"") == []
  {
    assert '"' in "\"";
    assert ['"', '"'][1..] == ['"'];
    assert ['"'][1..] == [];
  }

  lemma LStripQuote(value: string)
    requires value != [] && value[0] != '"'
    ensures LStripChars(['"'] + value + ['"'], "\"") == value + ['"']
  {
    assert '"' in "\"" && value[0] !in "\"";
    assert (['"'] + value + ['"'])[1..] == value + ['"'];
    LStripCharsStop(value + ['"'], "\"");
  }

  lemma RStripQuote(value: string)
    requires value != [] && value[|value| - 1] != '"'
    ensures RStripChars(value + ['"'], "\"") == value
  {
    assert '"' in "\"" && value[|value| - 1] !in "\"";
    RStripCharsDrop(value, '"', "\"");
    RStripCharsStop(value, "\"");
  }

  lemma RStripCharsDrop(s: string, c: char, chars: string)
    requires c in chars
    ensures RStripChars(s + [c], chars) == RStripChars(s, chars)
  {
    assert (s + [c])[..|s|] == s;
  }

  lemma RStripCharsStop(s: string, chars: string)
    requires s != [] && s[|s| - 1] !in chars
    ensures RStripChars(s, chars) == s
  {
  }

  /**
   * A line in the shell form `export NAME="value"` stops at the space: it
   * defines the name `export`, never `NAME`.
   */
  lemma ExportLineDefinesExport(name: string, value: string)
    requires GoodName(name) && GoodValue(value)
    ensures ParseConfigLine(ExportLine(name, value)).Some?
    ensures ParseConfigLine(ExportLine(name, value)).value.name == "export"
  {
    var def := "export" + [' '] + (name + ['='] + (['"'] + value + ['"']));
    ExportLineStrip(name, value);
    assert def[..6] == "export" && def[6] == ' ';
    assert NameEnd(def) == 6;
    assert RStrip("export") == "export";
  }

  lemma ExportLineStrip(name: string, value: string)
    requires GoodName(name) && GoodValue(value)
    ensures Strip(ExportLine(name, value)) == "export" + [' '] + (name + ['='] + (['"'] + value + ['"']))
  {
    var def := "export" + [' '] + (name + ['='] + (['"'] + value + ['"']));
    assert ExportLine(name, value) == def + "\n";
    assert def[0] == 'e' && def[|def| - 1] == '"';
    StripUnpadded(def);
  }

  function ExportLine(name: string, value: string): string {
    "export " + QuotedLine(name, value)
  }

  /** What each line of todo.cfg defines, in order. */
  function Definitions(lines: seq<string>): (defs: seq<Option<Definition>>)
    ensures |defs| == |lines|
    ensures forall i :: 0 <= i < |lines| ==> defs[i] == ParseConfigLine(lines[i])
  {
    seq(|lines|, i requires 0 <= i < |lines| => ParseConfigLine(lines[i]))
  }

  /** Assigning the definitions into an empty dictionary one after the other. */
  function Assign(defs: seq<Option<Definition>>): map<string, string> {
    if defs == [] then map[]
    else
      var d := defs[|defs| - 1];
      var front := Assign(defs[..|defs| - 1]);
      if d.Some? then front[d.value.name := d.value.value] else front
  }

  /** One more definition: assigned over what the ones before it left. */
  lemma AssignStep(defs: seq<Option<Definition>>, i: nat)
    requires i < |defs|
    ensures Assign(defs[..i + 1]) == if defs[i].Some? then Assign(defs[..i])[defs[i].value.name := defs[i].value.value] else Assign(defs[..i])
  {
    assert defs[..i + 1][..i] == defs[..i];
  }

  /** `propDict` after `parse_config` has read the lines of todo.cfg. */
  function ConfigOf(lines: seq<string>): map<string, string> {
    Assign(Definitions(lines))
  }

  /** Definition `i` is of `name`. */
  predicate Defines(defs: seq<Option<Definition>>, i: int, name: string)
    requires 0 <= i < |defs|
  {
    defs[i].Some? && defs[i].value.name == name
  }

  /**
   * A name is in `propDict` exactly when some line defines it, and it holds
   * the value of the last line that does.
   */
  lemma {:induction false} ConfigLastWins(defs: seq<Option<Definition>>, name: string)
    ensures name in Assign(defs) <==> exists i :: 0 <= i < |defs| && Defines(defs, i, name)
    ensures name in Assign(defs) ==> exists i :: (0 <= i < |defs| && Defines(defs, i, name)
      && Assign(defs)[name] == defs[i].value.value
      && forall j :: i < j < |defs| ==> !Defines(defs, j, name))
    decreases |defs|
  {
    if defs != [] {
      var n := |defs| - 1;
      var front := defs[..n];
      ConfigLastWins(front, name);
      forall i | 0 <= i < n
        ensures Defines(front, i, name) == Defines(defs, i, name)
      {
        assert front[i] == defs[i];
      }
      if !Defines(defs, n, name) && exists i :: 0 <= i < |defs| && Defines(defs, i, name) {
        var i :| 0 <= i < |defs| && Defines(defs, i, name);
        assert Defines(front, i, name);
      }
      if name in Assign(defs) && !Defines(defs, n, name) {
        var i :| 0 <= i < n && Defines(front, i, name)
          && Assign(front)[name] == front[i].value.value
          && forall j :: i < j < n ==> !Defines(front, j, name);
        assert Defines(defs, i, name);
      }
    }
  }

  /**
   * `resolve`: the first `$` starts a reference running to the next `/`.
   * The reference's value replaces everything up to that `/`, including
   * any text before the `$`. Without a `/` after the `$`, Python's
   * `find` returning -1 makes the end one before the `$`, so the
   * reference read is a slice running backwards. An unknown name raises KeyError.
   */
  function Resolve(dict: map<string, string>, value: string): (r: Result<string, PunchError>)
    ensures '$' !in value ==> r == Success(value)
    ensures r.Failure? ==> r.error == KeyError
  {
    var token := Find(value, '$');
    if token == -1 then Success(value)
    else Substitute(dict, value, token, token + Find(value[token..], '/'))
  }

  /** The reference runs from after the `$` at `token` to `terminus`; its value replaces `value[:terminus]`. */
  function Substitute(dict: map<string, string>, value: string, token: int, terminus: int): (r: Result<string, PunchError>)
    ensures r.Failure? ==> r.error == KeyError
  {
    var ref := Slice(value, token + 1, terminus);
    if ref !in dict then Failure(KeyError)
    else Success(dict[ref] + Slice(value, terminus, |value|))
  }

  /** `prefix$NAME/rest`. */
  function Reference(prefix: string, name: string, rest: string): string {
    prefix + ['$'] + name + ['/'] + rest
  }

  /**
   * `prefix$NAME/rest` resolves to the value of NAME, then `/rest`; the
   * prefix is lost. An undefined NAME raises KeyError.
   */
  lemma ResolveReference(dict: map<string, string>, prefix: string, name: string, rest: string)
    requires '$' !in prefix && '/' !in name
    ensures Resolve(dict, Reference(prefix, name, rest)).Success? <==> name in dict
    ensures name in dict ==> Resolve(dict, Reference(prefix, name, rest)).value == dict[name] + ['/'] + rest
  {
    ReferenceFound(dict, prefix, name, rest);
    ReferenceSubstituted(dict, prefix, name, rest);
    if name in dict {
      AppendAssoc(dict[name], ['/'], rest);
    }
  }

  /** In `prefix$NAME/rest` the reference starts at the `$` after the prefix and ends at the `/` after NAME. */
  lemma ReferenceFound(dict: map<string, string>, prefix: string, name: string, rest: string)
    requires '$' !in prefix && '/' !in name
    ensures var v := Reference(prefix, name, rest);
      Resolve(dict, v) == Substitute(dict, v, |prefix|, |prefix| + |name| + 1)
  {
    ReferenceDollar(prefix, name, rest);
    ReferenceTail(prefix, name, rest);
    ResolveAt(dict, Reference(prefix, name, rest), |prefix|, |prefix| + |name| + 1);
  }

  lemma ReferenceDollar(prefix: string, name: string, rest: string)
    requires '$' !in prefix
    ensures |prefix| < |Reference(prefix, name, rest)| && Find(Reference(prefix, name, rest), '$') == |prefix|
  {
    assert Reference(prefix, name, rest) == prefix + (['$'] + (name + ['/'] + rest));
    FindFirst(prefix, '$', ['$'] + (name + ['/'] + rest));
  }

  /** Between the `$` and the `/` of `prefix$NAME/rest` is NAME, and `/rest` follows. */
  lemma ReferenceSubstituted(dict: map<string, string>, prefix: string, name: string, rest: string)
    ensures var v := Reference(prefix, name, rest);
      Substitute(dict, v, |prefix|, |prefix| + |name| + 1)
      == if name in dict then Success(dict[name] + (['/'] + rest)) else Failure(KeyError)
  {
    ReferenceName(prefix, name, rest);
    ReferenceRest(prefix, name, rest);
    SubstituteName(dict, Reference(prefix, name, rest), |prefix|, name, ['/'] + rest);
  }

  /** A substitution whose reference reads `name` and keeps `tail` after it. */
  lemma SubstituteName(dict: map<string, string>, v: string, t: int, name: string, tail: string)
    requires Slice(v, t + 1, t + |name| + 1) == name && Slice(v, t + |name| + 1, |v|) == tail
    ensures Substitute(dict, v, t, t + |name| + 1) == if name in dict then Success(dict[name] + tail) else Failure(KeyError)
  {
  }

  lemma ReferenceTail(prefix: string, name: string, rest: string)
    requires '/' !in name
    ensures Find(Reference(prefix, name, rest)[|prefix|..], '/') == |name| + 1
  {
    var v := Reference(prefix, name, rest);
    var tail := ['$'] + name + ['/'] + rest;
    assert v[|prefix|..] == tail by {
      SuffixAfter(prefix, tail);
      assert prefix + tail == v;
    }
    assert '/' !in ['$'] + name;
    assert tail == (['$'] + name) + (['/'] + rest);
    FindFirst(['$'] + name, '/', ['/'] + rest);
  }

  lemma ReferenceName(prefix: string, name: string, rest: string)
    ensures Slice(Reference(prefix, name, rest), |prefix| + 1, |prefix| + |name| + 1) == name
  {
    var v := Reference(prefix, name, rest);
    SliceWithin(v, |prefix| + 1, |prefix| + |name| + 1);
    MiddleSlice(prefix + ['$'], name, ['/'] + rest);
    assert prefix + ['$'] + name + (['/'] + rest) == v;
  }

  lemma ReferenceRest(prefix: string, name: string, rest: string)
    ensures Slice(Reference(prefix, name, rest), |prefix| + |name| + 1, |Reference(prefix, name, rest)|) == ['/'] + rest
  {
    var v := Reference(prefix, name, rest);
    SliceWithin(v, |prefix| + |name| + 1, |v|);
    SuffixAfter(prefix + ['$'] + name, ['/'] + rest);
    assert prefix + ['$'] + name + (['/'] + rest) == v;
  }

  lemma SuffixAfter(a: string, b: string)
    ensures (a + b)[|a|..] == b
  {
  }

  /** `resolve` once its `$` is found at `t` and the reference ends at `terminus`. */
  lemma ResolveAt(dict: map<string, string>, v: string, t: nat, terminus: int)
    requires Find(v, '$') == t && t < |v| && t + Find(v[t..], '/') == terminus
    ensures Resolve(dict, v) == Substitute(dict, v, t, terminus)
  {
    var token := Find(v, '$');
    assert token == t && token != -1;
  }

  lemma MiddleSlice(a: string, b: string, c: string)
    ensures (a + b + c)[|a|..|a| + |b|] == b
  {
  }

  lemma SliceWithin(s: string, i: int, j: int)
    requires 0 <= i <= j <= |s|
    ensures Slice(s, i, j) == s[i..j]
  {
  }

  /**
   * A reference with no `/` after it, behind a non-empty prefix, reads the
   * empty name and keeps everything from the last character of the prefix on.
   */
  lemma ResolveWithoutSlash(dict: map<string, string>, prefix: string, name: string)
    requires prefix != [] && '$' !in prefix && '/' !in name
    ensures Resolve(dict, prefix + ['$'] + name).Success? <==> [] in dict
    ensures [] in dict ==> Resolve(dict, prefix + ['$'] + name).value == dict[[]] + [prefix[|prefix| - 1]] + ['$'] + name
  {
    UnterminatedFound(dict, prefix, name);
    UnterminatedSubstituted(dict, prefix, name);
  }

  /** With no `/` after the `$`, `find` gives -1 and the end falls one before the `$`. */
  lemma UnterminatedFound(dict: map<string, string>, prefix: string, name: string)
    requires '$' !in prefix && '/' !in name
    ensures var v := prefix + ['$'] + name;
      Resolve(dict, v) == Substitute(dict, v, |prefix|, |prefix| - 1)
  {
    var v := prefix + ['$'] + name;
    var t := |prefix|;
    assert v == prefix + (['$'] + name);
    FindFirst(prefix, '$', ['$'] + name);
    assert Find(v[t..], '/') == -1 by {
      assert v[t..] == ['$'] + name;
    }
    ResolveAt(dict, v, t, |prefix| - 1);
  }

  /** The backwards slice is empty, and the text kept starts one before the `$`. */
  lemma UnterminatedSubstituted(dict: map<string, string>, prefix: string, name: string)
    requires prefix != []
    ensures var v := prefix + ['$'] + name;
      Substitute(dict, v, |prefix|, |prefix| - 1)
      == if [] in dict then Success(dict[[]] + [prefix[|prefix| - 1]] + ['$'] + name) else Failure(KeyError)
  {
    var v := prefix + ['$'] + name;
    var t := |prefix|;
    assert Slice(v, t + 1, t - 1) == [];
    assert Slice(v, t - 1, |v|) == [prefix[|prefix| - 1]] + ['$'] + name by {
      SliceWithin(v, t - 1, |v|);
      assert v[t - 1..] == [prefix[|prefix| - 1]] + ['$'] + name;
    }
    if [] in dict {
      AppendAssoc(dict[[]], [prefix[|prefix| - 1]] + ['$'], name);
      AppendAssoc(dict[[]], [prefix[|prefix| - 1]], ['$']);
    }
  }

  /**
   * A value starting with `$` and holding no `/`: `find` gives -1, the end
   * of the reference falls on the last character, so the name read drops
   * that character and the last character alone is kept after the value
   * (`"$HOME"` looks up `HOM` and appends `E`).
   */
  lemma ResolveLeadingWithoutSlash(dict: map<string, string>, name: string)
    requires '/' !in name
    ensures var v := ['$'] + name;
      var key := if name == [] then [] else name[..|name| - 1];
      Resolve(dict, v) == if key in dict then Success(dict[key] + [v[|v| - 1]]) else Failure(KeyError)
  {
    var v := ['$'] + name;
    UnterminatedFound(dict, [], name);
    assert [] + ['$'] + name == v;
    LeadingSubstituted(dict, name);
  }

  /** The slices of `$name` that `resolve` reads when the end of the reference is -1. */
  lemma LeadingSubstituted(dict: map<string, string>, name: string)
    ensures var v := ['$'] + name;
      var key := if name == [] then [] else name[..|name| - 1];
      Substitute(dict, v, 0, -1) == if key in dict then Success(dict[key] + [v[|v| - 1]]) else Failure(KeyError)
  {
    var v := ['$'] + name;
    var key := if name == [] then [] else name[..|name| - 1];
    assert Slice(v, 1, -1) == key by {
      if |name| >= 2 {
        assert v[1..|v| - 1] == name[..|name| - 1];
      }
    }
    assert Slice(v, -1, |v|) == [v[|v| - 1]];
  }
}
