/** Canonical scheduler paths (path.rs): absolute, backslash-separated, no empty or
    dotted component.  A folder is the list of its components; the root is the empty list. */
module Paths {
  import opened Text

  /** What validate_component accepts. */
  predicate ValidComponent(text: string) {
    && text != "" && text != "." && text != ".."
    && Trimmed(text)
    && '\\' !in text && '/' !in text && '\0' !in text
  }

  predicate IsSpace(c: char) {
    c == ' ' || ('\t' <= c <= '\r') || c == '\U{0085}' || c == '\U{00A0}' || c == '\U{1680}'
    || ('\U{2000}' <= c <= '\U{200A}') || c == '\U{2028}' || c == '\U{2029}' || c == '\U{202F}'
    || c == '\U{205F}' || c == '\U{3000}'
  }

  predicate Trimmed(text: string) {
    text != "" ==> !IsSpace(text[0]) && !IsSpace(text[|text| - 1])
  }

  type Component = text: string | ValidComponent(text) witness "a"
  type FolderPath = seq<Component>
  datatype TaskPath = TaskPath(folder: FolderPath, name: Component)

  /** The components of a task path, its name last. */
  function Full(path: TaskPath): FolderPath { path.folder + [path.name] }

  /** The text that follows the root: a backslash before each component. */
  function Tail(components: seq<string>): string {
    if components == [] then "" else "\\" + components[0] + Tail(components[1..])
  }

  /** FolderPath::as_str. */
  function FolderText(folder: seq<string>): string {
    if folder == [] then "\\" else Tail(folder)
  }

  /** TaskPath::as_str. */
  function TaskText(path: TaskPath): string { Tail(Full(path)) }

  function Parent(folder: FolderPath): FolderPath
    requires folder != []
  {
    folder[..|folder| - 1]
  }

  // ---- canonicalize -------------------------------------------------------------

  function Normalize(text: string): string {
    seq(|text|, i requires 0 <= i < |text| => if text[i] == '/' then '\\' else text[i])
  }

  /** The component list of a parsed path, or nothing where canonicalize reports an error. */
  function Canonicalize(text: string, isFolder: bool): (components: seq<seq<string>>)
    ensures |components| <= 1
  {
    if '\0' in text then []
    else
      var normalized := Normalize(text);
      if normalized == "" || normalized[0] != '\\' then []
      else if normalized == "\\" then (if isFolder then [[]] else [])
      else if normalized[|normalized| - 1] == '\\' then []
      else
        var pieces := Split(normalized[1..], '\\');
        if forall piece <- pieces :: ValidComponent(piece) then [pieces] else []
  }

  lemma {:induction false} TailIsJoined(components: seq<string>)
    requires components != []
    ensures Tail(components) == "\\" + Join(components, '\\')
  {
    if |components| == 1 {
      assert Tail(components) == "\\" + components[0] + Tail([]);
    } else {
      TailIsJoined(components[1..]);
    }
  }

  /** Splitting what Tail printed gives the components back. */
  lemma SplitTail(components: seq<string>)
    requires components != []
    requires forall c <- components :: '\\' !in c
    ensures Split(Tail(components)[1..], '\\') == components
  {
    TailIsJoined(components);
    SplitJoined(components, '\\');
  }

  lemma {:induction false} TailOfSplit(text: string)
    ensures Tail(Split(text, '\\')) == "\\" + text
  {
    if text == "" {
      assert Tail([""]) == "\\" + "" + Tail([]);
    } else {
      TailOfSplit(text[1..]);
      var rest := Split(text[1..], '\\');
      var pieces := Split(text, '\\');
      if text[0] == '\\' {
        assert pieces[0] == "" && pieces[1..] == rest;
        assert Tail(pieces) == "\\" + "" + Tail(rest);
      } else {
        assert pieces[0] == [text[0]] + rest[0] && pieces[1..] == rest[1..];
        assert Tail(rest) == "\\" + rest[0] + Tail(rest[1..]);
        assert Tail(rest)[1..] == rest[0] + Tail(rest[1..]);
        assert ("\\" + text[1..])[1..] == text[1..];
        assert Tail(pieces) == "\\" + ([text[0]] + rest[0]) + Tail(rest[1..]);
      }
    }
  }

  lemma {:induction false} TailIsClean(components: seq<string>)
    requires forall c <- components :: ValidComponent(c)
    ensures '/' !in Tail(components) && '\0' !in Tail(components)
    ensures components != [] ==>
      && |Tail(components)| >= 2
      && Tail(components)[0] == '\\'
      && Tail(components)[|Tail(components)| - 1] != '\\'
  {
    if components != [] {
      TailIsClean(components[1..]);
      var c := components[0];
      assert ValidComponent(c);
      assert Tail(components) == "\\" + c + Tail(components[1..]);
    }
  }

  lemma PrintedIsParsed(folder: FolderPath, isFolder: bool)
    requires isFolder || folder != []
    ensures Canonicalize(FolderText(folder), isFolder) == [folder]
  {
    hide Tail, Split;
    var canonical := FolderText(folder);
    TailIsClean(folder);
    assert Normalize(canonical) == canonical;
    if folder != [] {
      SplitTail(folder);
    }
  }

  lemma ParsedIsPrinted(text: string, isFolder: bool)
    ensures var parsed := Canonicalize(text, isFolder);
      parsed != [] ==> FolderText(parsed[0]) == Normalize(text)
                       && (forall c <- parsed[0] :: ValidComponent(c)) && (isFolder || parsed[0] != [])
  {
    hide Tail, Split, ValidComponent, Normalize;
    var normalized := Normalize(text);
    if Canonicalize(text, isFolder) != [] && normalized != "\\" {
      TailOfSplit(normalized[1..]);
      assert normalized == "\\" + normalized[1..];
    }
  }

  /** Parsing the canonical text of any path yields that path, and whatever parses has the
      normalized text as its canonical text: printing and parsing are inverse both ways. */
  lemma CanonicalRoundTrip(folder: FolderPath, text: string, isFolder: bool)
    ensures isFolder || folder != [] ==> Canonicalize(FolderText(folder), isFolder) == [folder]
    ensures var parsed := Canonicalize(text, isFolder);
      parsed != [] ==> FolderText(parsed[0]) == Normalize(text)
                       && (forall c <- parsed[0] :: ValidComponent(c)) && (isFolder || parsed[0] != [])
  {
    hide Canonicalize, FolderText, Normalize, ValidComponent;
    if isFolder || folder != [] {
      PrintedIsParsed(folder, isFolder);
    }
    ParsedIsPrinted(text, isFolder);
  }

  lemma {:induction false} TailInjective(a: seq<string>, b: seq<string>)
    requires forall c <- a + b :: '\\' !in c
    requires Tail(a) == Tail(b)
    ensures a == b
  {
    if a != [] && b != [] {
      assert forall c <- a :: c in a + b;
      assert forall c <- b :: c in a + b;
      SplitTail(a);
      SplitTail(b);
    }
  }

  lemma FolderTextInjective(a: FolderPath, b: FolderPath)
    requires FolderText(a) == FolderText(b)
    ensures a == b
  {
    TailIsClean(a);
    TailIsClean(b);
    if a != [] && b != [] {
      TailInjective(a, b);
    }
  }

  lemma TaskTextInjective(a: TaskPath, b: TaskPath)
    requires TaskText(a) == TaskText(b)
    ensures a == b
  {
    TailInjective(Full(a), Full(b));
    assert a.folder == Full(a)[..|a.folder|] && b.folder == Full(b)[..|b.folder|];
  }

  // ---- what is accepted ---------------------------------------------------------

  /** str::trim_start and str::trim_end. */
  function TrimStart(text: string): string {
    if text != "" && text[0] in WHITE_SPACE then TrimStart(text[1..]) else text
  }

  function TrimEnd(text: string): string {
    if text != "" && text[|text| - 1] in WHITE_SPACE then TrimEnd(text[..|text| - 1]) else text
  }

  /** The property White_Space of Unicode. */
  const WHITE_SPACE :=
    "\t\n\U{B}\U{C}\r \U{85}\U{A0}\U{1680}\U{2000}\U{2001}\U{2002}\U{2003}\U{2004}\U{2005}\U{2006}\U{2007}"
    + "\U{2008}\U{2009}\U{200A}\U{2028}\U{2029}\U{202F}\U{205F}\U{3000}"

  lemma WhiteSpaceExactly(c: char)
    ensures IsSpace(c) <==> c in WHITE_SPACE
  {
  }

  lemma {:induction false} TrimsAreShort(text: string)
    ensures |TrimStart(text)| <= |text| && |TrimEnd(text)| <= |text|
    decreases |text|
  {
    if text != "" {
      TrimsAreShort(text[1..]);
      TrimsAreShort(text[..|text| - 1]);
    }
  }

  /** A component is what trimming leaves alone and what has no separator, no NUL and no dots only. */
  lemma ComponentExactly(text: string)
    ensures ValidComponent(text) <==>
      && text !in ["", ".", ".."]
      && TrimStart(TrimEnd(text)) == text
      && forall c <- text :: c !in "\\/\0"
  {
    if text != "" {
      WhiteSpaceExactly(text[0]);
      WhiteSpaceExactly(text[|text| - 1]);
      hide IsSpace;
      TrimsAreShort(text[..|text| - 1]);
      TrimsAreShort(text[1..]);
      TrimsAreShort(TrimEnd(text));
    }
    assert forall c :: c in "\\/\0" <==> c == '\\' || c == '/' || c == '\0';
  }

  /** What the scheduler would make of a list of components: a dot stays, two dots climb. */
  function Resolved(components: seq<string>): (folder: seq<string>) {
    if components == [] then []
    else
      var above := Resolved(components[..|components| - 1]);
      var last := components[|components| - 1];
      if last == "" || last == "." then above
      else if last == ".." then (if above == [] then [] else above[..|above| - 1])
      else above + [last]
  }

  /** No accepted path climbs: it denotes the components it spells. */
  lemma {:induction false} AcceptedPathsStay(components: FolderPath)
    ensures Resolved(components) == components
  {
    if components != [] {
      AcceptedPathsStay(components[..|components| - 1]);
      assert ValidComponent(components[|components| - 1]);
    }
  }

  /** Which texts are read as which path, character by character. */
  lemma ReadExactly(text: string, folder: FolderPath, isFolder: bool)
    ensures Canonicalize(text, isFolder) == [folder] <==>
      && (isFolder || folder != [])
      && |text| == |FolderText(folder)|
      && forall i :: 0 <= i < |text| ==> FolderText(folder)[i] == if text[i] == '/' then '\\' else text[i]
  {
    hide FolderText, Canonicalize;
    var canonical := FolderText(folder);
    ParsedIsPrinted(text, isFolder);
    if Canonicalize(text, isFolder) == [folder] {
      assert Normalize(text) == canonical;
    } else if && (isFolder || folder != []) && |text| == |canonical|
              && forall i :: 0 <= i < |text| ==> canonical[i] == if text[i] == '/' then '\\' else text[i] {
      assert Normalize(text) == canonical;
      PrintedIsParsed(folder, isFolder);
      CanonicalIsClean(folder);
      assert Normalize(canonical) == canonical;
      NulStays(text);
      SameNormalForm(text, canonical, isFolder);
    }
  }

  lemma CanonicalIsClean(folder: FolderPath)
    ensures '/' !in FolderText(folder) && '\0' !in FolderText(folder)
  {
    TailIsClean(folder);
  }

  lemma NulStays(text: string)
    ensures '\0' in text ==> '\0' in Normalize(text)
  {
    if '\0' in text {
      var i :| 0 <= i < |text| && text[i] == '\0';
      assert Normalize(text)[i] == '\0';
    }
  }

  lemma SameNormalForm(a: string, b: string, isFolder: bool)
    requires '\0' !in a && '\0' !in b && Normalize(a) == Normalize(b)
    ensures Canonicalize(a, isFolder) == Canonicalize(b, isFolder)
  {
  }

  // ---- namespaces ---------------------------------------------------------------

  /** manifest.rs within_namespace, on the canonical texts. */
  predicate WithinNamespace(path: string, namespace: string) {
    path == namespace
    || (namespace <= path && |path| > |namespace| && path[|namespace|] == '\\')
  }

  lemma SharedHead(head: string, namespace: string, path: string)
    ensures WithinNamespace(head + path, head + namespace) <==> WithinNamespace(path, namespace)
  {
    assert (head + path)[|head|..] == path && (head + namespace)[|head|..] == namespace;
    if head + namespace <= head + path {
      assert (head + path)[..|head + namespace|] == head + namespace;
      assert path[..|namespace|] == (head + path)[|head|..|head| + |namespace|];
      assert namespace == (head + namespace)[|head|..|head| + |namespace|];
      assert namespace <= path;
    }
    if namespace <= path {
      assert path == namespace + path[|namespace|..];
      assert head + path == (head + namespace) + path[|namespace|..];
    }
  }

  lemma {:induction false} TailPrefix(namespace: seq<string>, path: seq<string>)
    requires forall c <- namespace + path :: '\\' !in c
    ensures WithinNamespace(Tail(path), Tail(namespace)) <==> namespace <= path
  {
    if namespace == [] {
      assert path != [] ==> Tail(path)[0] == '\\';
    } else if path != [] {
      assert namespace[0] in namespace + path && path[0] in namespace + path;
      TailPrefixStep(namespace, path);
      assert forall c <- namespace[1..] + path[1..] :: c in namespace + path;
      TailPrefix(namespace[1..], path[1..]);
      assert namespace == [namespace[0]] + namespace[1..] && path == [path[0]] + path[1..];
    }
  }

  lemma TailHead(components: seq<string>)
    requires components != []
    ensures Tail(components) == "\\" + (components[0] + Tail(components[1..]))
    ensures var rest := Tail(components[1..]); rest != "" ==> rest[0] == '\\'
  {
  }

  lemma TailPrefixStep(namespace: seq<string>, path: seq<string>)
    requires namespace != [] && path != [] && '\\' !in namespace[0] && '\\' !in path[0]
    ensures WithinNamespace(Tail(path), Tail(namespace))
            <==> namespace[0] == path[0] && WithinNamespace(Tail(path[1..]), Tail(namespace[1..]))
  {
    hide WithinNamespace, Tail;
    TailHead(namespace);
    TailHead(path);
    HeadStep(namespace[0], Tail(namespace[1..]), path[0], Tail(path[1..]));
  }

  lemma HeadStep(n: string, n': string, p: string, p': string)
    requires '\\' !in n && '\\' !in p
    requires n' != "" ==> n'[0] == '\\'
    requires p' != "" ==> p'[0] == '\\'
    ensures WithinNamespace("\\" + (p + p'), "\\" + (n + n')) <==> n == p && WithinNamespace(p', n')
  {
    hide WithinNamespace;
    SharedHead("\\", n + n', p + p');
    if WithinNamespace(p + p', n + n') {
      HeadsAgree(n, n', p, p');
    }
    if n == p {
      SharedHead(n, n', p');
    }
  }

  /** A component that is followed by a separator or by nothing is read off unambiguously. */
  lemma {:induction false} HeadsAgree(a: string, n: string, b: string, p: string)
    requires '\\' !in a && '\\' !in b
    requires n != "" ==> n[0] == '\\'
    requires p != "" ==> p[0] == '\\'
    requires WithinNamespace(b + p, a + n)
    ensures a == b
  {
    assert a != "" ==> (a + n)[0] == a[0];
    assert b != "" ==> (b + p)[0] == b[0];
    if a != "" && b != "" {
      assert (a + n)[1..] == a[1..] + n && (b + p)[1..] == b[1..] + p;
      HeadsAgree(a[1..], n, b[1..], p);
      assert a == [a[0]] + a[1..] && b == [b[0]] + b[1..];
    } else {
      assert a == "" ==> a + n == n;
      assert b == "" ==> b + p == p;
    }
  }

  /** The textual namespace test decides component containment exactly when the namespace is
      not the root; under the root namespace it accepts the root alone, although every folder lies below. */
  lemma WithinNamespaceIsContainment(namespace: FolderPath, path: FolderPath)
    ensures namespace != [] ==>
      (WithinNamespace(FolderText(path), FolderText(namespace)) <==> namespace <= path)
    ensures namespace == [] ==> (WithinNamespace(FolderText(path), FolderText(namespace)) <==> path == [])
  {
    TailIsClean(path);
    TailIsClean(namespace);
    if namespace != [] {
      if path == [] {
      } else {
        TailPrefix(namespace, path);
      }
    } else if path != [] {
      var text := FolderText(path);
      assert text == "\\" + path[0] + Tail(path[1..]);
      assert ValidComponent(path[0]);
      assert text[1] == path[0][0];
    }
  }
}
