/**
  The configuration node that holds a list of enum constants.  Its `value()`
  reads the raw string list of the configuration file and keeps, in order,
  the entries that parse: a null or empty entry is skipped, and so is an
  entry whose `parse` throws IllegalArgumentException.  The raw list is an
  input here (reading it from the file is the host's job); a null entry is
  None, and `parse` is a partial function that answers None where the Java
  override throws.
*/
module EnumListNode {
  import opened Wrappers

  /** Whether a raw entry contributes an element: present, non-empty and parseable. */
  predicate Accepted<E>(entry: Option<string>, parse: string -> Option<E>) {
    entry.Some? && entry.value != "" && parse(entry.value).Some?
  }

  /** What one raw entry contributes to the list: its parsed value, or nothing. */
  function Contribution<E>(entry: Option<string>, parse: string -> Option<E>): seq<E> {
    if Accepted(entry, parse) then [parse(entry.value).value] else []
  }

  /** The list `value()` builds from the raw entries `raw`, defined from the last entry back. */
  function Parsed<E>(raw: seq<Option<string>>, parse: string -> Option<E>): (r: seq<E>)
    ensures |r| <= |raw|
  {
    if raw == [] then []
    else Parsed(raw[..|raw| - 1], parse) + Contribution(raw[|raw| - 1], parse)
  }

  /** `EnumListNode.value()`: one pass over the raw entries, appending each one that parses. */
  method Value<E>(raw: seq<Option<string>>, parse: string -> Option<E>) returns (list: seq<E>)
    ensures list == Parsed(raw, parse)
  {
    list := [];
    for i := 0 to |raw|
      invariant list == Parsed(raw[..i], parse)
    {
      assert raw[..i + 1][..i] == raw[..i];
      var value := raw[i];
      if value.Some? && value.value != "" {
        var parsedValue := parse(value.value);
        if parsedValue.Some? {
          list := list + [parsedValue.value];
        }
      }
    }
    assert raw[..|raw|] == raw;
  }

  /** Parsing a concatenation parses each part and concatenates, keeping input order. */
  lemma {:induction false} ParsedAppend<E>(a: seq<Option<string>>, b: seq<Option<string>>, parse: string -> Option<E>)
    ensures Parsed(a + b, parse) == Parsed(a, parse) + Parsed(b, parse)
  {
    if b == [] {
      assert a + b == a;
    } else {
      var b' := b[..|b| - 1];
      assert (a + b)[..|a + b| - 1] == a + b';
      ParsedAppend(a, b', parse);
    }
  }

  /** A one-entry list whose entry is rejected parses to nothing. */
  lemma RejectedAlone<E>(entry: Option<string>, parse: string -> Option<E>)
    requires !Accepted(entry, parse)
    ensures Parsed([entry], parse) == []
  {
    assert [entry][..0] == [];
  }

  /** A null entry, an empty entry or one whose parse fails is skipped, wherever it stands. */
  lemma RejectedEntrySkipped<E>(a: seq<Option<string>>, entry: Option<string>, b: seq<Option<string>>, parse: string -> Option<E>)
    requires entry.None? || entry.value == "" || parse(entry.value).None?
    ensures Parsed(a + [entry] + b, parse) == Parsed(a + b, parse)
  {
    RejectedAlone(entry, parse);
    calc {
      Parsed(a + [entry] + b, parse);
      { ParsedAppend(a + [entry], b, parse); }
      Parsed(a + [entry], parse) + Parsed(b, parse);
      { ParsedAppend(a, [entry], parse); }
      Parsed(a, parse) + Parsed([entry], parse) + Parsed(b, parse);
      Parsed(a, parse) + Parsed(b, parse);
      { ParsedAppend(a, b, parse); }
      Parsed(a + b, parse);
    }
  }

  /** An element is in the list exactly when some accepted entry parses to it. */
  lemma {:induction false} ParsedMembers<E>(raw: seq<Option<string>>, parse: string -> Option<E>, e: E)
    ensures e in Parsed(raw, parse) <==>
      exists i :: 0 <= i < |raw| && Accepted(raw[i], parse) && parse(raw[i].value) == Some(e)
  {
    if raw != [] {
      var init := raw[..|raw| - 1];
      ParsedMembers(init, parse, e);
      if e in Parsed(raw, parse) && e !in Parsed(init, parse) {
        var k := |raw| - 1;
        assert Accepted(raw[k], parse) && parse(raw[k].value) == Some(e);
      }
      if exists i :: 0 <= i < |raw| && Accepted(raw[i], parse) && parse(raw[i].value) == Some(e) {
        var i :| 0 <= i < |raw| && Accepted(raw[i], parse) && parse(raw[i].value) == Some(e);
        if i < |raw| - 1 {
          assert init[i] == raw[i];
        }
      }
    }
  }

  /** When every entry is accepted, the list has one element per entry, each the parse of that entry. */
  lemma {:induction false} AllAcceptedParsed<E>(raw: seq<Option<string>>, parse: string -> Option<E>)
    requires forall i :: 0 <= i < |raw| ==> Accepted(raw[i], parse)
    ensures |Parsed(raw, parse)| == |raw|
    ensures forall i :: 0 <= i < |raw| ==> raw[i].Some? && parse(raw[i].value) == Some(Parsed(raw, parse)[i])
  {
    if raw != [] {
      var init := raw[..|raw| - 1];
      assert forall i :: 0 <= i < |init| ==> init[i] == raw[i];
      AllAcceptedParsed(init, parse);
    }
  }
}
