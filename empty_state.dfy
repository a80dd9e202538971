/** The empty-state panel: a heading naming the missing things with a
    capital first letter, and a message or a default sentence. */
module EmptyState {
  import opened Lifecycle
  import Text

  /** `type.charAt(0).toUpperCase() + type.slice(1)` */
  function Capitalize(s: string): (r: string)
    ensures |r| == |s|
    ensures |s| > 0 ==> r[0] == Text.UpperChar(s[0]) && r[1..] == s[1..]
  {
    if s == [] then [] else [Text.UpperChar(s[0])] + s[1..]
  }

  /** Capitalising twice is capitalising once; a capitalised type is kept. */
  lemma CapitalizeIdempotent(s: string)
    ensures Capitalize(Capitalize(s)) == Capitalize(s)
    ensures |s| > 0 && !('a' <= s[0] <= 'z') ==> Capitalize(s) == s
  {
    if |s| > 0 {
      var c := Capitalize(s);
      assert c == [c[0]] + c[1..];
      assert s == [s[0]] + s[1..];
    }
  }

  /** The heading: `No {Type} Found`. */
  function Heading(thing: string): (r: string)
    ensures |r| == |thing| + 9
    ensures r[..3] == "No " && r[3..|thing| + 3] == Capitalize(thing) && r[|thing| + 3..] == " Found"
  {
    "No " + Capitalize(thing) + " Found"
  }

  /** The default sentence: `No {type} have been submitted yet.`, with the
      type as given, not capitalised. */
  function DefaultMessage(thing: string): (r: string)
    ensures |r| == |thing| + 28
    ensures r[..3] == "No " && r[3..|thing| + 3] == thing &&
            r[|thing| + 3..] == " have been submitted yet."
  {
    "No " + thing + " have been submitted yet."
  }

  /** The body: `message || default`; an empty message also falls back. */
  function Body(thing: string, message: Option<string>): (r: string)
    ensures message.Some? && message.value != "" ==> r == message.value
    ensures message.None? || message.value == "" ==> r == DefaultMessage(thing)
  {
    OrFallback(message, DefaultMessage(thing))
  }

  /** The heading names the type it was given: the type can be read back
      from it, up to the case of its first letter. */
  lemma HeadingDeterminesType(a: string, b: string)
    requires Heading(a) == Heading(b)
    ensures |a| == |b|
    ensures |a| > 0 ==> a[1..] == b[1..] && Text.UpperChar(a[0]) == Text.UpperChar(b[0])
  {
    var ha, hb := Heading(a), Heading(b);
    assert ha[3..|a| + 3] == Capitalize(a) && hb[3..|b| + 3] == Capitalize(b);
  }

  /** The default sentence names the type exactly: different types give
      different sentences. */
  lemma DefaultMessageDeterminesType(a: string, b: string)
    requires DefaultMessage(a) == DefaultMessage(b)
    ensures a == b
  {
    var ma, mb := DefaultMessage(a), DefaultMessage(b);
    assert ma[3..|a| + 3] == a && mb[3..|b| + 3] == b;
  }

  /** A type spelled as a lower-case letter and the rest gets the heading
      with that letter's capital in front of the rest. */
  lemma HeadingOfWord(thing: string, first: char, rest: string, capital: char, expected: string)
    requires thing == [first] + rest
    requires 'a' <= first <= 'z' && capital as int == first as int - 32
    requires expected == "No " + ([capital] + rest) + " Found"
    ensures Heading(thing) == expected
  {
    assert thing[1..] == rest;
    assert Capitalize(thing) == [capital] + rest;
  }

  /** The panel's own examples. */
  lemma ExampleHeadings()
    ensures Heading("documents") == "No Documents Found"
    ensures Heading("claims") == "No Claims Found"
    ensures Heading("policies") == "No Policies Found"
  {
    HeadingDocuments();
    HeadingClaims();
    HeadingPolicies();
  }

  lemma HeadingDocuments()
    ensures Heading("documents") == "No Documents Found"
  {
    HeadingOfWord("documents", 'd', "ocuments", 'D', "No Documents Found");
  }

  lemma HeadingClaims()
    ensures Heading("claims") == "No Claims Found"
  {
    HeadingOfWord("claims", 'c', "laims", 'C', "No Claims Found");
  }

  lemma HeadingPolicies()
    ensures Heading("policies") == "No Policies Found"
  {
    HeadingOfWord("policies", 'p', "olicies", 'P', "No Policies Found");
  }

  /** Without a message, or with an empty one, the body is the default
      sentence; a message of its own is shown as given. */
  lemma ExampleBodies()
    ensures Body("claims", None) == "No claims have been submitted yet."
    ensures Body("claims", Some("")) == "No claims have been submitted yet."
    ensures Body("policies", Some("Custom empty state message")) == "Custom empty state message"
  {
    DefaultClaims();
  }

  lemma DefaultClaims()
    ensures DefaultMessage("claims") == "No claims have been submitted yet."
  {
  }
}
