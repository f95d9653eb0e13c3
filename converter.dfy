/** The parameter list that the converter view sends to the remote LaTeX compile service:
    the source field the compile mode asks for (trimmed), then the optional engine, force
    and download parameters, in that order. */
module Converter {
  import opened Common
  import opened Strings
  import UrlParams

  /** The converter form as read when the user confirms the compilation. */
  datatype CompileForm = CompileForm(
    mode: string,          // "text", "url" or "git"; any other value sends no source field
    command: string,       // the selected compile engine
    force: bool,           // the "force" check box
    download: bool,        // the "download" check box
    downloadName: string,  // the download file name as typed
    content: string,       // the editor text (text mode)
    url: string,           // the document address (url mode)
    git: string,           // the repository address (git mode)
    target: string)        // the main file inside the repository (git mode)

  /** The compile mode selected by the radio button; a value other than the three known ones
      sends no source parameter. */
  datatype CompileMode = TextMode | UrlMode | GitMode | NoSource

  function ModeOf(mode: string): (m: CompileMode)
    ensures m.TextMode? <==> mode == "text"
    ensures m.UrlMode? <==> mode == "url"
    ensures m.GitMode? <==> mode == "git"
  {
    if mode == "text" then TextMode
    else if mode == "url" then UrlMode
    else if mode == "git" then GitMode
    else NoSource
  }

  /** The required field that was empty after trimming; the request is then not sent. */
  datatype ConvertError = MissingText | MissingUrl | MissingGitOrTarget

  /** The parameter names the form can send. */
  datatype Key = Text | Url | Git | Target | Command | Force | Download

  /** The name under which a parameter appears in the query string. */
  function KeyName(k: Key): (name: string)
    ensures name != [] && '&' !in name && '=' !in name
  {
    match k
    case Text => "text"
    case Url => "url"
    case Git => "git"
    case Target => "target"
    case Command => "command"
    case Force => "force"
    case Download => "download"
  }

  type Param = (Key, string)

  const DefaultCommand: string := "pdflatex"
  const DefaultDownloadName: string := "output.pdf"

  /** The value bound to `key` in a parameter list (the first one, as a lookup would see). */
  function Lookup(ps: seq<Param>, key: Key): (v: Option<string>)
    ensures v.None? <==> forall i :: 0 <= i < |ps| ==> ps[i].0 != key
    ensures v.Some? ==> exists i :: 0 <= i < |ps| && ps[i] == (key, v.value)
  {
    if ps == [] then None
    else if ps[0].0 == key then Some(ps[0].1)
    else
      var r := Lookup(ps[1..], key);
      assert forall i :: 0 < i < |ps| ==> ps[i] == ps[1..][i - 1];
      assert r.Some? ==> exists i :: 0 <= i < |ps[1..]| && ps[1..][i] == (key, r.value);
      r
  }

  /** Appending a parameter leaves every earlier binding visible and binds a new key. */
  lemma {:induction false} LookupAppend(ps: seq<Param>, p: Param, key: Key)
    ensures Lookup(ps + [p], key) == if Lookup(ps, key).Some? then Lookup(ps, key)
                                     else if p.0 == key then Some(p.1) else None
    decreases |ps|
  {
    if ps != [] {
      assert (ps + [p])[1..] == ps[1..] + [p];
      if ps[0].0 != key {
        LookupAppend(ps[1..], p, key);
      }
    }
  }

  /** Every key appears at most once. */
  predicate DistinctKeys(ps: seq<Param>)
  {
    forall i, j :: 0 <= i < j < |ps| ==> ps[i].0 != ps[j].0
  }

  /** The file name sent with `download`: the typed name, or the default when it is empty. */
  function DownloadName(f: CompileForm): (name: string)
    ensures name != []
    ensures f.downloadName != [] ==> name == f.downloadName
    ensures f.downloadName == [] ==> name == DefaultDownloadName
  {
    if f.downloadName == [] then DefaultDownloadName else f.downloadName
  }

  /** The error reported when the mode's required field is missing. */
  function MissingFieldError(m: CompileMode): ConvertError
  {
    match m
    case TextMode => MissingText
    case UrlMode => MissingUrl
    case _ => MissingGitOrTarget
  }

  /** The value the mode sends under a source key: the trimmed field it asks for. */
  function SourceValue(f: CompileForm, key: Key): Option<string>
  {
    match (ModeOf(f.mode), key)
    case (TextMode, Text) => Some(Trim(f.content))
    case (UrlMode, Url) => Some(Trim(f.url))
    case (GitMode, Git) => Some(Trim(f.git))
    case (GitMode, Target) => Some(Trim(f.target))
    case _ => None
  }

  /** Whether the mode's required fields are present once trimmed. */
  predicate SourcePresent(f: CompileForm)
  {
    match ModeOf(f.mode)
    case TextMode => Trim(f.content) != []
    case UrlMode => Trim(f.url) != []
    case GitMode => Trim(f.git) != [] && Trim(f.target) != []
    case NoSource => true
  }

  /** Appending a parameter under a key not yet bound keeps the keys distinct, binds that
      key and leaves every other binding as it was. */
  lemma AppendParam(ps: seq<Param>, p: Param)
    requires DistinctKeys(ps) && Lookup(ps, p.0).None?
    ensures DistinctKeys(ps + [p])
    ensures Lookup(ps + [p], p.0) == Some(p.1)
    ensures forall key :: key != p.0 ==> Lookup(ps + [p], key) == Lookup(ps, key)
  {
    forall key {
      LookupAppend(ps, p, key);
    }
  }

  /** The source parameters of the compile mode. A missing required field stops with an error. */
  method SourceParams(f: CompileForm) returns (r: Result<seq<Param>, ConvertError>)
    ensures r.Failure? <==> !SourcePresent(f)
    ensures r.Failure? ==> r.error == MissingFieldError(ModeOf(f.mode))
    ensures r.Success? ==> DistinctKeys(r.value)
    ensures r.Success? ==> forall key :: Lookup(r.value, key) == SourceValue(f, key)
  {
    match ModeOf(f.mode) {
      case TextMode => r := RequiredParam(f.content, Text, MissingText);
      case UrlMode => r := RequiredParam(f.url, Url, MissingUrl);
      case GitMode => r := GitParams(f.git, f.target);
      case NoSource => r := Success([]);
    }
  }

  /** A single required source field: its trimmed value, or `err` when that is empty. */
  method RequiredParam(field: string, key: Key, err: ConvertError) returns (r: Result<seq<Param>, ConvertError>)
    ensures r.Failure? <==> Trim(field) == []
    ensures r.Failure? ==> r.error == err
    ensures r.Success? ==> DistinctKeys(r.value)
    ensures r.Success? ==> forall other :: Lookup(r.value, other) == if other == key then Some(Trim(field)) else None
  {
    var value := Trim(field);
    if value == [] {
      return Failure(err);
    }
    r := Success([(key, value)]);
  }

  /** The repository and target fields of git mode, both required. */
  method GitParams(git: string, target: string) returns (r: Result<seq<Param>, ConvertError>)
    ensures r.Failure? <==> Trim(git) == [] || Trim(target) == []
    ensures r.Failure? ==> r.error == MissingGitOrTarget
    ensures r.Success? ==> DistinctKeys(r.value)
    ensures r.Success? ==> forall key :: Lookup(r.value, key) == (match key
                                                                    case Git => Some(Trim(git))
                                                                    case Target => Some(Trim(target))
                                                                    case _ => None)
  {
    var g := Trim(git);
    var t := Trim(target);
    if g == [] || t == [] {
      return Failure(MissingGitOrTarget);
    }
    AppendParam([(Git, g)], (Target, t));
    r := Success([(Git, g), (Target, t)]);
  }

  /** The parameters that only the check boxes and the engine choice decide. */
  predicate IsOptionKey(key: Key)
  {
    key.Command? || key.Force? || key.Download?
  }

  /** The value sent under an option key: the engine unless it is the default, `true` when
      forcing, the download name when downloading. */
  function OptionValue(f: CompileForm, key: Key): Option<string>
  {
    match key
    case Command => if f.command != DefaultCommand then Some(f.command) else None
    case Force => if f.force then Some("true") else None
    case Download => if f.download then Some(DownloadName(f)) else None
    case _ => None
  }

  /** The value the whole form sends under a key, if any. */
  function ParamValue(f: CompileForm, key: Key): Option<string>
  {
    if IsOptionKey(key) then OptionValue(f, key) else SourceValue(f, key)
  }

  /** Appends the engine (unless it is the default), `force=true` when checked and the
      download name when checked, leaving the source parameters as they were. */
  method AppendOptions(f: CompileForm, source: seq<Param>) returns (ps: seq<Param>)
    requires DistinctKeys(source)
    requires forall key :: IsOptionKey(key) ==> Lookup(source, key).None?
    ensures DistinctKeys(ps)
    ensures forall key :: Lookup(ps, key) == if IsOptionKey(key) then OptionValue(f, key) else Lookup(source, key)
  {
    ps := source;
    if f.command != DefaultCommand {
      AppendParam(ps, (Command, f.command));
      ps := ps + [(Command, f.command)];
    }
    if f.force {
      AppendParam(ps, (Force, "true"));
      ps := ps + [(Force, "true")];
    }
    if f.download {
      AppendParam(ps, (Download, DownloadName(f)));
      ps := ps + [(Download, DownloadName(f))];
    }
  }

  /** The parameter-building part of `convertToPDF`: the source parameters, then the options.
      It fails exactly when the mode's required field is blank; otherwise every key is sent at
      most once, bound to the value the form gives it. */
  method BuildParams(f: CompileForm) returns (r: Result<seq<Param>, ConvertError>)
    ensures r.Failure? <==> !SourcePresent(f)
    ensures r.Failure? ==> r.error == MissingFieldError(ModeOf(f.mode))
    ensures r.Success? ==> DistinctKeys(r.value)
    ensures r.Success? ==> forall key :: Lookup(r.value, key) == ParamValue(f, key)
  {
    r := SourceParams(f);
    if r.Success? {
      var ps := AppendOptions(f, r.value);
      r := Success(ps);
    }
  }

  /** `URLSearchParams.toString()` after the form encoder `encode`: one `name=value` piece
      per parameter, in order. The names are plain ASCII letters, which the encoder keeps. */
  function Pieces(ps: seq<Param>, encode: string -> string): (pieces: seq<string>)
    ensures |pieces| == |ps|
    ensures forall i :: 0 <= i < |ps| ==> pieces[i] == KeyName(ps[i].0) + "=" + encode(ps[i].1)
  {
    if ps == [] then []
    else [KeyName(ps[0].0) + "=" + encode(ps[0].1)] + Pieces(ps[1..], encode)
  }

  /** The query string: the pieces joined with `&`. */
  function Query(ps: seq<Param>, encode: string -> string): string
  {
    Join(Pieces(ps, encode), '&')
  }

  /** The address that is opened: the selected API server, `?`, then the query string. */
  function FullUrl(apiServer: string, ps: seq<Param>, encode: string -> string): string
  {
    apiServer + "?" + Query(ps, encode)
  }

  /** The query string a reader of an address sees: the text after its first `?` (empty
      when there is none). */
  function QueryPart(url: string): (q: string)
    ensures |q| <= |url|
    decreases |url|
  {
    if url == [] then []
    else if url[0] == '?' then url[1..]
    else QueryPart(url[1..])
  }

  /** Text without `?` in front of a `?` is skipped: the query part starts after that `?`. */
  lemma {:induction false} QueryPartAfterPrefix(prefix: string, rest: string)
    requires '?' !in prefix
    ensures QueryPart(prefix + "?" + rest) == rest
    decreases |prefix|
  {
    if prefix == [] {
      assert prefix + "?" + rest == ['?'] + rest;
    } else {
      assert (prefix + "?" + rest)[1..] == prefix[1..] + "?" + rest;
      QueryPartAfterPrefix(prefix[1..], rest);
    }
  }

  /** For an API server address without a `?` of its own, the query part of the address
      that is opened is exactly the serialised parameter list, so `QueryReadsBack` applies
      to what the server receives. */
  lemma FullUrlCarriesQuery(apiServer: string, ps: seq<Param>, encode: string -> string)
    requires '?' !in apiServer
    ensures QueryPart(FullUrl(apiServer, ps, encode)) == Query(ps, encode)
  {
    QueryPartAfterPrefix(apiServer, Query(ps, encode));
  }

  /** With an encoder that escapes `&` and `=` (as form encoding does), the query string
      splits back into exactly one piece per parameter, and reading a piece as `key=value`
      gives the parameter's name and its encoded value. An empty list, which a mode other
      than the three gives with the `pdflatex` command and neither box checked, serialises
      to the empty query string, whose one empty piece reads back as no pair at all. */
  lemma {:induction false} QueryReadsBack(ps: seq<Param>, encode: string -> string)
    requires |ps| >= 1
    requires forall s :: '&' !in encode(s) && '=' !in encode(s)
    ensures Split(Query(ps, encode), '&') == Pieces(ps, encode)
    ensures forall i :: 0 <= i < |ps| ==>
      UrlParams.PairOf(Pieces(ps, encode)[i]) == Some((KeyName(ps[i].0), encode(ps[i].1)))
  {
    var pieces := Pieces(ps, encode);
    forall i | 0 <= i < |ps| ensures '&' !in pieces[i] {
      var k, v := KeyName(ps[i].0), encode(ps[i].1);
      assert pieces[i] == k + "=" + v;
      assert '&' !in k && '&' !in v;
    }
    SplitJoin(pieces, '&');
    forall i | 0 <= i < |ps|
      ensures UrlParams.PairOf(pieces[i]) == Some((KeyName(ps[i].0), encode(ps[i].1)))
    {
      var k, v := KeyName(ps[i].0), encode(ps[i].1);
      KeyValueSplits(k, v);
    }
  }

  /** `key=value` with no `=` inside either part splits on `=` into exactly the two parts. */
  lemma KeyValueSplits(k: string, v: string)
    requires k != [] && '=' !in k && '=' !in v
    ensures UrlParams.PairOf(k + "=" + v) == Some((k, v))
  {
    assert Join([k, v], '=') == k + "=" + v by {
      assert Join([k, v][1..], '=') == v;
    }
    SplitJoin([k, v], '=');
  }
}
