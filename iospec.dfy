/**
 * The `<name>[:<format>]=<url>` specifications of graph inputs and outputs: the text is
 * split at its first `=`, and the part before it at its last `:`.
 */
module IoSpec {
  import opened Wrappers
  import opened Strings

  /** A parsed specification; the url is kept as the text handed to the url parser. */
  datatype IOSpec = IOSpec(name: string, url: string, fmt: Option<string>)

  datatype ParseError = CouldNotParse(spec: string)

  /**
   * `IOSpec.__init__`: `spec_str.split("=", 1)` fails without an `=`; the url parser may
   * reject the url text (`urlParses`); both raise "could not parse". The name part is then
   * split with `rsplit(":", 1)`.
   */
  function Parse(s: string, urlParses: string -> bool): (r: Result<IOSpec, ParseError>)
    ensures '=' !in s ==> r == Failure(CouldNotParse(s))
    ensures r.Failure? ==> r.error == CouldNotParse(s)
    ensures r.Success? ==> Render(r.value) == s && WellFormed(r.value) && urlParses(r.value.url)
  {
    match FirstIndex(s, '=')
    case None => Failure(CouldNotParse(s))
    case Some(i) =>
      var nameFmt := s[..i];
      var url := s[i + 1..];
      assert s == nameFmt + "=" + url;
      if !urlParses(url) then Failure(CouldNotParse(s))
      else
        match LastIndex(nameFmt, ':')
        case None => Success(IOSpec(nameFmt, url, None))
        case Some(j) =>
          assert nameFmt == nameFmt[..j] + ":" + nameFmt[j + 1..];
          assert '=' !in nameFmt[..j];
          Success(IOSpec(nameFmt[..j], url, Some(nameFmt[j + 1..])))
  }

  /** The text a specification is written as. */
  function Render(spec: IOSpec): string {
    var nameFmt := if spec.fmt.Some? then spec.name + ":" + spec.fmt.value else spec.name;
    nameFmt + "=" + spec.url
  }

  /**
   * What parsing can produce: a name without `=`; a format without `:` or `=`; and with no
   * format, a name without `:`.
   */
  predicate WellFormed(spec: IOSpec) {
    && '=' !in spec.name
    && (spec.fmt.Some? ==> ':' !in spec.fmt.value && '=' !in spec.fmt.value)
    && (spec.fmt.None? ==> ':' !in spec.name)
  }

  /** Parsing the text of a well-formed specification whose url parses gives it back. */
  lemma ParseRender(spec: IOSpec, urlParses: string -> bool)
    requires WellFormed(spec) && urlParses(spec.url)
    ensures Parse(Render(spec), urlParses) == Success(spec)
  {
    var s := Render(spec);
    var nameFmt := if spec.fmt.Some? then spec.name + ":" + spec.fmt.value else spec.name;
    assert s[..|nameFmt|] == nameFmt && s[|nameFmt|] == '=' && s[|nameFmt| + 1..] == spec.url;
    assert '=' !in nameFmt;
    FirstIndexUnique(s, '=', |nameFmt|);
    if spec.fmt.Some? {
      assert nameFmt[..|spec.name|] == spec.name && nameFmt[|spec.name|] == ':';
      assert nameFmt[|spec.name| + 1..] == spec.fmt.value;
      LastIndexUnique(nameFmt, ':', |spec.name|);
    }
  }

  /** Without a colon before the `=`, there is no format and the name is the whole part. */
  lemma ParseWithoutFormat(name: string, url: string, urlParses: string -> bool)
    requires '=' !in name && ':' !in name && urlParses(url)
    ensures Parse(name + "=" + url, urlParses) == Success(IOSpec(name, url, None))
  {
    ParseRender(IOSpec(name, url, None), urlParses);
  }

  /** A trailing colon gives the empty format, not `None`. */
  lemma ParseEmptyFormat(name: string, url: string, urlParses: string -> bool)
    requires '=' !in name && ':' !in name && urlParses(url)
    ensures Parse(name + ":=" + url, urlParses) == Success(IOSpec(name, url, Some("")))
  {
    assert name + ":=" + url == Render(IOSpec(name, url, Some("")));
    ParseRender(IOSpec(name, url, Some("")), urlParses);
  }
}
