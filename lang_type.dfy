/** lib/util/lang-type.js: the languages an example can be written in and the
    classifier that reads the language off an example's repository name. */
module LangType {
  import opened Common
  import opened Strings

  /** The three languages. `JS` is bound to `langEnum.Javascript`, which is not
      one of the enum's names, so at run time it is `undefined`; it is still
      distinct from the `null` that `parse` returns for "no language", which is
      why "no language" is `None` below and not a fourth variant. */
  datatype Lang = JS | JAVA | DOTNET

  /** What `parse` may be handed: a string, or any non-string value
      (`undefined` when an install has no `di-config.json`, for instance). */
  datatype Name = Str(s: string) | NotAString

  const JsMarker := "js-"
  const JavaMarker := "java-"
  const DotnetMarker := "dotnet-"

  ghost predicate Mentions(name: Name, marker: string)
  {
    name.Str? && exists i :: OccursAt(name.s, marker, i)
  }

  /** `LangType.parse(name)`: substring containment, checked in the fixed order
      `js-`, `java-`, `dotnet-`; a falsy or non-string name is "no language". */
  function Parse(name: Name): (r: Option<Lang>)
    ensures (name.NotAString? || name.s == "") ==> r == None
    ensures r == Some(JS) <==> Mentions(name, JsMarker)
    ensures r == Some(JAVA) <==> !Mentions(name, JsMarker) && Mentions(name, JavaMarker)
    ensures r == Some(DOTNET) <==>
      !Mentions(name, JsMarker) && !Mentions(name, JavaMarker) && Mentions(name, DotnetMarker)
    ensures r == None <==>
      !Mentions(name, JsMarker) && !Mentions(name, JavaMarker) && !Mentions(name, DotnetMarker)
  {
    match name
    case NotAString => None
    case Str(s) =>
      if s == "" then None
      else if Contains(s, JsMarker) then Some(JS)
      else if Contains(s, JavaMarker) then Some(JAVA)
      else if Contains(s, DotnetMarker) then Some(DOTNET)
      else None
  }

  /** Matching is containment, not prefix: a marker anywhere in the name decides. */
  lemma MarkerAnywhere(before: string, after: string)
    ensures Parse(Str(before + JsMarker + after)) == Some(JS)
  {
    var s := before + JsMarker + after;
    assert s[|before|..|before| + 3] == JsMarker;
    assert OccursAt(s, JsMarker, |before|);
  }
}
