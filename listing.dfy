/** lib/commands/install.js, `listExamples`: the repository listing is
    filtered down to example names, bucketed by language, and either the
    requested example is installed at once or a menu is built from the
    non-empty buckets. */
module Listing {
  import opened Common
  import opened Strings
  import opened LangType

  /** The two-space indent every listed example carries in the menu. */
  const Indent := "  "
  const HomeLabel := "Take me back home!"

  /** What a menu entry hands back when picked: its label, or `{method: 'home'}`. */
  datatype MenuValue = Label(text: string) | HomeMethod

  /** An entry of an inquirer list: a separator (with or without a title) or
      a named item. */
  datatype Choice<V> = Separator(title: Option<string>) | Item(name: string, value: V)

  /** How the listing step ends. `Thrown`: an exception escapes the response
      handler and the command is never answered. */
  datatype Listed = Abort(err: Option<Error>) | InstallNow(example: string) | Menu(choices: seq<Choice<MenuValue>>) | Thrown

  predicate IsExampleName(name: string)
  {
    Contains(name, "example")
  }

  /** The menu label one listed name contributes to a language's bucket. */
  function Labelled(name: string, lang: Lang): seq<string>
  {
    if IsExampleName(name) && Parse(Str(name)) == Some(lang) then [Indent + name] else []
  }

  /** The labels of `names`, each name contributing `labelling(name)`, in order. */
  function Gather(names: seq<string>, labelling: string -> seq<string>): seq<string>
  {
    if names == [] then [] else labelling(names[0]) + Gather(names[1..], labelling)
  }

  /** Gathering distributes over concatenation of the listing. */
  lemma {:induction false} GatherAppend(a: seq<string>, b: seq<string>, labelling: string -> seq<string>)
    ensures Gather(a + b, labelling) == Gather(a, labelling) + Gather(b, labelling)
    decreases |a|
  {
    if a == [] {
      assert a + b == b;
    } else {
      assert (a + b)[0] == a[0];
      assert (a + b)[1..] == a[1..] + b;
      GatherAppend(a[1..], b, labelling);
    }
  }

  /** `Labelled` for one language, as the function `Gather` applies. */
  function LabelOf(lang: Lang): string -> seq<string>
  {
    name => Labelled(name, lang)
  }

  /** A labelling giving each name at most one label gathers at most one label per name. */
  lemma {:induction false} GatherShort(names: seq<string>, labelling: string -> seq<string>)
    requires forall n :: |labelling(n)| <= 1
    ensures |Gather(names, labelling)| <= |names|
    decreases |names|
  {
    if names != [] {
      GatherShort(names[1..], labelling);
    }
  }

  /** The menu labels of the example names of one language, in listing order. */
  function Bucket(names: seq<string>, lang: Lang): (b: seq<string>)
    ensures |b| <= |names|
  {
    GatherShort(names, LabelOf(lang));
    Gather(names, LabelOf(lang))
  }

  /** The bucket of a non-empty listing: the first name's label, then the rest's bucket. */
  lemma BucketCons(names: seq<string>, lang: Lang)
    requires names != []
    ensures Bucket(names, lang) == Labelled(names[0], lang) + Bucket(names[1..], lang)
  {
  }

  /** Bucketing keeps the listing's order: the bucket of a concatenation is the
      concatenation of the buckets. */
  lemma BucketAppend(a: seq<string>, b: seq<string>, lang: Lang)
    ensures Bucket(a + b, lang) == Bucket(a, lang) + Bucket(b, lang)
  {
    GatherAppend(a, b, LabelOf(lang));
  }

  /** One more listed name adds at most its own label to a bucket. */
  lemma BucketOfOneMore(seen: seq<string>, name: string, lang: Lang)
    ensures Bucket(seen + [name], lang) == Bucket(seen, lang) + Labelled(name, lang)
  {
    BucketAppend(seen, [name], lang);
    assert [name][1..] == [];
    BucketCons([name], lang);
  }

  /** A label is in a language's bucket exactly when it is the indented form of
      a listed example name of that language; names with no language, and
      names without `example`, are dropped. */
  lemma {:induction false} BucketMembers(names: seq<string>, lang: Lang, entry: string)
    ensures entry in Bucket(names, lang) <==>
              exists n :: n in names && entry == Indent + n && IsExampleName(n) && Parse(Str(n)) == Some(lang)
    decreases |names|
  {
    if names != [] {
      BucketCons(names, lang);
      BucketMembers(names[1..], lang, entry);
      assert forall n :: n in names <==> n == names[0] || n in names[1..];
    }
  }

  /** The bucketed labels as list items; picking one hands back its label. */
  function Items(labels: seq<string>): (items: seq<Choice<MenuValue>>)
    ensures |items| == |labels|
    ensures forall i :: 0 <= i < |labels| ==> items[i] == Item(labels[i], Label(labels[i]))
  {
    seq(|labels|, i requires 0 <= i < |labels| => Item(labels[i], Label(labels[i])))
  }

  /** Every label is offered as an item. */
  lemma ItemsOffered(labels: seq<string>)
    ensures forall l :: l in labels ==> Item(l, Label(l)) in Items(labels)
  {
    forall l | l in labels
      ensures Item(l, Label(l)) in Items(labels)
    {
      var i :| 0 <= i < |labels| && labels[i] == l;
      assert Items(labels)[i] == Item(l, Label(l));
    }
  }

  const JsTitle := Separator(Some("JavaScript Examples "))
  const JavaTitle := Separator(Some("Java Examples "))
  const DotnetTitle := Separator(Some(".NET Examples "))

  /** The example menu: a titled section per non-empty bucket (the Java
      section after an extra blank separator), then a separator and the way
      back home. */
  function ExampleMenu(js: seq<string>, java: seq<string>, dotnet: seq<string>): (menu: seq<Choice<MenuValue>>)
    ensures |menu| >= 2
    ensures menu[|menu| - 2] == Separator(None) && menu[|menu| - 1] == Item(HomeLabel, HomeMethod)
    ensures JsTitle in menu <==> js != []
    ensures JavaTitle in menu <==> java != []
    ensures DotnetTitle in menu <==> dotnet != []
    ensures js == [] && java == [] && dotnet == [] ==> menu == [Separator(None), Item(HomeLabel, HomeMethod)]
    ensures forall l :: l in js ==> Item(l, Label(l)) in menu
    ensures forall l :: l in java ==> Item(l, Label(l)) in menu
    ensures forall l :: l in dotnet ==> Item(l, Label(l)) in menu
  {
    ItemsOffered(js);
    ItemsOffered(java);
    ItemsOffered(dotnet);
    var jsPart := if js != [] then [JsTitle] + Items(js) else [];
    var javaPart := if java != [] then [Separator(None), JavaTitle] + Items(java) else [];
    var dotnetPart := if dotnet != [] then [DotnetTitle] + Items(dotnet) else [];
    var menu := jsPart + javaPart + dotnetPart + [Separator(None), Item(HomeLabel, HomeMethod)];
    assert forall c :: c in menu <==> c in jsPart || c in javaPart || c in dotnetPart
                                      || c == Separator(None) || c == Item(HomeLabel, HomeMethod);
    menu
  }

  /** The requested example is among the listed example names. */
  predicate Requested(names: seq<string>, exName: Option<string>)
  {
    exName.Some? && exName.value in names && IsExampleName(exName.value)
  }

  /** The requested example is listed among `seen + [name]` exactly when it is
      listed among `seen` or is `name` itself. */
  lemma RequestedStep(seen: seq<string>, name: string, exName: Option<string>)
    ensures Requested(seen + [name], exName) <==>
              Requested(seen, exName) || (IsExampleName(name) && exName == Some(name))
  {
    assert forall n :: n in seen + [name] <==> n in seen || n == name;
  }

  /** The `forEach` callback on one name of the listing: after the names
      `seen`, it keeps `found` and the three buckets in step with the names
      `seen + [name]`. */
  method ScanStep(seen: seq<string>, name: string, exName: Option<string>,
                  found: bool, js: seq<string>, java: seq<string>, dotnet: seq<string>)
    returns (found': bool, js': seq<string>, java': seq<string>, dotnet': seq<string>)
    requires found <==> Requested(seen, exName)
    requires js == Bucket(seen, JS) && java == Bucket(seen, JAVA) && dotnet == Bucket(seen, DOTNET)
    ensures found' <==> Requested(seen + [name], exName)
    ensures js' == Bucket(seen + [name], JS) && java' == Bucket(seen + [name], JAVA)
    ensures dotnet' == Bucket(seen + [name], DOTNET)
  {
    BucketOfOneMore(seen, name, JS);
    BucketOfOneMore(seen, name, JAVA);
    BucketOfOneMore(seen, name, DOTNET);
    RequestedStep(seen, name, exName);
    found', js', java', dotnet' := found, js, java, dotnet;
    if Contains(name, "example") {
      found' := if Some(name) == exName then true else found;
      var lang := Parse(Str(name));
      if lang == Some(JS) {
        js' := js + [Indent + name];
      } else if lang == Some(JAVA) {
        java' := java + [Indent + name];
      } else if lang == Some(DOTNET) {
        dotnet' := dotnet + [Indent + name];
      }
    }
  }

  /** The listing callback: a transport error or a status other than 200 ends
      the command with that error (none at all for a bad status alone). A
      body that does not parse (`None`) lands in the `catch`, whose reply is
      built with `chalk.bold`; `chalk` is not bound in that file (only
      `di.chalk` is), so the `catch` itself throws a ReferenceError and the
      command is never answered. Otherwise the requested example is installed
      when listed, else the menu is shown. */
  method ListExamples(exName: Option<string>, err: Option<Error>, status: int, body: Option<seq<string>>)
    returns (r: Listed)
    ensures r.Abort? <==> err.Some? || status != 200
    ensures r.Abort? ==> r == Abort(err)
    ensures r.Thrown? <==> err.None? && status == 200 && body.None?
    ensures !r.Abort? && !r.Thrown? && Requested(body.value, exName) ==> r == InstallNow(exName.value)
    ensures !r.Abort? && !r.Thrown? && !Requested(body.value, exName) ==>
              r == Menu(ExampleMenu(Bucket(body.value, JS), Bucket(body.value, JAVA), Bucket(body.value, DOTNET)))
  {
    if err.Some? || status != 200 {
      return Abort(err);
    }
    if body.None? {
      return Thrown;
    }
    var found, jsList, javaList, dotnetList := ScanListing(body.value, exName);
    if found {
      return InstallNow(exName.value);
    }
    r := Menu(ExampleMenu(jsList, javaList, dotnetList));
  }

  /** The `forEach` over the listing: whether the requested example is among
      the example names, and the three buckets. */
  method ScanListing(names: seq<string>, exName: Option<string>)
    returns (found: bool, js: seq<string>, java: seq<string>, dotnet: seq<string>)
    ensures found <==> Requested(names, exName)
    ensures js == Bucket(names, JS) && java == Bucket(names, JAVA) && dotnet == Bucket(names, DOTNET)
  {
    found := false;
    js, java, dotnet := [], [], [];
    var i := 0;
    while i < |names|
      invariant 0 <= i <= |names|
      invariant found <==> Requested(names[..i], exName)
      invariant js == Bucket(names[..i], JS)
      invariant java == Bucket(names[..i], JAVA)
      invariant dotnet == Bucket(names[..i], DOTNET)
    {
      var name, seen := names[i], names[..i];
      assert names[..i + 1] == seen + [name];
      found, js, java, dotnet := ScanStep(seen, name, exName, found, js, java, dotnet);
      i := i + 1;
    }
    assert names[..|names|] == names;
  }

  /** What picking a menu entry leads to. */
  datatype Picked = InstallPicked(example: string) | GoHome

  /** The menu's answer: a label is trimmed and installed, the home entry goes home. */
  function PickExample(value: MenuValue): (p: Picked)
    ensures value.HomeMethod? <==> p.GoHome?
    ensures value.Label? ==> p == InstallPicked(Trim(value.text))
  {
    match value
    case Label(text) => InstallPicked(Trim(text))
    case HomeMethod => GoHome
  }

  /** Picking a bucketed example installs exactly the listed name: trimming
      undoes the indent. */
  lemma PickUndoesIndent(name: string)
    requires Trimmed(name)
    ensures PickExample(Label(Indent + name)) == InstallPicked(name)
  {
    assert IsJsSpace(' ');
    TrimPadded(Indent, name);
  }
}
