/**
 * The CGI environment: `build_cgi_env`, which turns the request's variables into
 * a CGI environment dictionary, and `setup_cgi` / `restore_nocgi`, which swap the
 * process environment and standard streams in and out around a CGI-style handler.
 */
module CgiEnv {
  import opened PyString

  /** The request fields build_cgi_env reads, after `req.add_common_vars()`. */
  datatype CgiRequest = CgiRequest(
    subprocessEnv: map<string, string>,
    uri: string,
    pathInfo: string,
    headersIn: map<string, string>)

  const GATEWAY := "Python-CGI/1.1"

  /** `uri[:-len(path_info)]`, or the whole uri when path_info is empty. */
  function ScriptName(uri: string, pathInfo: string): string {
    if |pathInfo| > 0 then Before(uri, -|pathInfo|) else uri
  }

  /** The dictionary build_cgi_env returns. */
  function CgiEnvSpec(r: CgiRequest): map<string, string> {
    var env := r.subprocessEnv["SCRIPT_NAME" := ScriptName(r.uri, r.pathInfo)]["GATEWAY_INTERFACE" := GATEWAY];
    if "authorization" in r.headersIn then env["HTTP_AUTHORIZATION" := r.headersIn["authorization"]] else env
  }

  /** SCRIPT_NAME is the uri without its last len(path_info) characters. */
  lemma ScriptNameStripsPathInfo(uri: string, pathInfo: string)
    ensures |pathInfo| <= |uri| ==> ScriptName(uri, pathInfo) + uri[|uri| - |pathInfo|..] == uri
    ensures |pathInfo| <= |uri| ==> |ScriptName(uri, pathInfo)| == |uri| - |pathInfo|
    ensures |pathInfo| > |uri| ==> ScriptName(uri, pathInfo) == ""
    ensures |pathInfo| <= |uri| && uri[|uri| - |pathInfo|..] == pathInfo ==>
      ScriptName(uri, pathInfo) + pathInfo == uri
  {
    if |pathInfo| <= |uri| {
      assert uri[..|uri| - |pathInfo|] + uri[|uri| - |pathInfo|..] == uri;
    }
  }

  /**
   * The built environment: every request variable copied, SCRIPT_NAME and the
   * gateway marker set, and HTTP_AUTHORIZATION set from the authorization header
   * when there is one.
   */
  lemma CgiEnvContents(r: CgiRequest)
    ensures var env := CgiEnvSpec(r);
      env["GATEWAY_INTERFACE"] == "Python-CGI/1.1" && env["SCRIPT_NAME"] == ScriptName(r.uri, r.pathInfo)
    ensures var env := CgiEnvSpec(r);
      "authorization" in r.headersIn ==> env["HTTP_AUTHORIZATION"] == r.headersIn["authorization"]
    ensures var env := CgiEnvSpec(r);
      "HTTP_AUTHORIZATION" in env <==> "authorization" in r.headersIn || "HTTP_AUTHORIZATION" in r.subprocessEnv
    ensures var env := CgiEnvSpec(r);
      forall k :: k != "SCRIPT_NAME" && k != "GATEWAY_INTERFACE" && k != "HTTP_AUTHORIZATION" ==>
        (k in env <==> k in r.subprocessEnv) && (k in env ==> env[k] == r.subprocessEnv[k])
    ensures CgiEnvSpec(r).Keys == r.subprocessEnv.Keys + {"SCRIPT_NAME", "GATEWAY_INTERFACE"}
      + (if "authorization" in r.headersIn then {"HTTP_AUTHORIZATION"} else {})
  {
  }

  /** `for k in src.keys(): dst[k] = src[k]`: every entry of src written over dst. */
  method CopyInto(dst: map<string, string>, src: map<string, string>) returns (out: map<string, string>)
    ensures out == dst + src
  {
    out := dst;
    var keys := src.Keys;
    while keys != {}
      invariant keys <= src.Keys
      invariant forall k :: k in out <==> k in dst || (k in src && k !in keys)
      invariant forall k :: k in out ==> out[k] == if k in src && k !in keys then src[k] else dst[k]
      decreases keys
    {
      var k :| k in keys;
      out := out[k := src[k]];
      keys := keys - {k};
    }
  }

  method BuildCgiEnv(r: CgiRequest) returns (env: map<string, string>)
    ensures env == CgiEnvSpec(r)
  {
    env := CopyInto(map[], r.subprocessEnv);
    assert env == r.subprocessEnv;
    if |r.pathInfo| > 0 {
      env := env["SCRIPT_NAME" := Before(r.uri, -|r.pathInfo|)];
    } else {
      env := env["SCRIPT_NAME" := r.uri];
    }
    env := env["GATEWAY_INTERFACE" := GATEWAY];
    if "authorization" in r.headersIn {
      env := env["HTTP_AUTHORIZATION" := r.headersIn["authorization"]];
    }
  }

  /** A file object's identity, as held by sys.stdin or sys.stdout. */
  datatype Stream = Stream(id: int)

  /** What setup_cgi hands back for restore_nocgi: (environ, stdin, stdout). */
  datatype Saved = Saved(environ: map<string, string>, stdin: Stream, stdout: Stream)

  /** The process-wide state setup_cgi and restore_nocgi change. */
  datatype ProcState = ProcState(environ: map<string, string>, stdin: Stream, stdout: Stream, argv: seq<string>)

  datatype SetupResult = SetupResult(state: ProcState, saved: Saved)

  /** setup_cgi as written: the saved copy of the environment is overwritten by the CGI one. */
  function SetupSpec(p: ProcState, r: CgiRequest, cgiIn: Stream, cgiOut: Stream): SetupResult {
    SetupResult(ProcState(CgiEnvSpec(r), cgiIn, cgiOut, []), Saved(CgiEnvSpec(r), p.stdin, p.stdout))
  }

  /** restore_nocgi as written: stdout gets the saved stdin and stdin the saved stdout. */
  function RestoreSpec(p: ProcState, s: Saved): ProcState {
    p.(environ := s.environ, stdout := s.stdin, stdin := s.stdout)
  }

  /** setup_cgi saving the environment it found, as its documentation says. */
  function IntendedSetupSpec(p: ProcState, r: CgiRequest, cgiIn: Stream, cgiOut: Stream): SetupResult {
    SetupResult(ProcState(CgiEnvSpec(r), cgiIn, cgiOut, []), Saved(p.environ, p.stdin, p.stdout))
  }

  /** restore_nocgi putting each stream back where it came from. */
  function IntendedRestoreSpec(p: ProcState, s: Saved): ProcState {
    p.(environ := s.environ, stdin := s.stdin, stdout := s.stdout)
  }

  /** While set up, the process sees the CGI environment and the adapter streams. */
  lemma SetupInstallsCgi(p: ProcState, r: CgiRequest, cgiIn: Stream, cgiOut: Stream)
    ensures var s := SetupSpec(p, r, cgiIn, cgiOut).state;
      s.environ == CgiEnvSpec(r) && s.stdin == cgiIn && s.stdout == cgiOut && s.argv == []
    ensures IntendedSetupSpec(p, r, cgiIn, cgiOut).state == SetupSpec(p, r, cgiIn, cgiOut).state
  {
  }

  /**
   * As written, a setup/restore round trip keeps the CGI environment and swaps
   * the two standard streams.
   */
  lemma RoundTripLeaksCgi(p: ProcState, r: CgiRequest, cgiIn: Stream, cgiOut: Stream)
    ensures var up := SetupSpec(p, r, cgiIn, cgiOut);
      var back := RestoreSpec(up.state, up.saved);
      back.environ == CgiEnvSpec(r) && back.stdin == p.stdout && back.stdout == p.stdin
    ensures var up := SetupSpec(p, r, cgiIn, cgiOut);
      var back := RestoreSpec(up.state, up.saved);
      "GATEWAY_INTERFACE" !in p.environ ==> back.environ != p.environ
    ensures var up := SetupSpec(p, r, cgiIn, cgiOut);
      var back := RestoreSpec(up.state, up.saved);
      p.stdin != p.stdout ==> back.stdin != p.stdin
  {
    CgiEnvContents(r);
  }

  /** The intended round trip gives back the environment and both streams; only argv stays empty. */
  lemma IntendedRoundTripRestores(p: ProcState, r: CgiRequest, cgiIn: Stream, cgiOut: Stream)
    ensures var up := IntendedSetupSpec(p, r, cgiIn, cgiOut);
      IntendedRestoreSpec(up.state, up.saved) == p.(argv := [])
  {
  }

  /** The interpreter process: os.environ, sys.stdin, sys.stdout and sys.argv. */
  class Process {
    var environ: map<string, string>
    var stdin: Stream
    var stdout: Stream
    var argv: seq<string>

    function State(): ProcState
      reads this
    {
      ProcState(environ, stdin, stdout, argv)
    }

    constructor (environ: map<string, string>, stdin: Stream, stdout: Stream, argv: seq<string>)
      ensures State() == ProcState(environ, stdin, stdout, argv)
    {
      this.environ, this.stdin, this.stdout, this.argv := environ, stdin, stdout, argv;
    }

    /**
     * Edit os.environ in place (other code holds a reference to it): delete
     * every key, then insert every entry of env.
     */
    method ReplaceEnviron(env: map<string, string>)
      modifies this`environ
      ensures environ == env
    {
      var keys := environ.Keys;
      while keys != {}
        invariant environ.Keys == keys
        decreases keys
      {
        var k :| k in keys;
        environ := environ - {k};
        keys := keys - {k};
      }
      environ := CopyInto(environ, env);
      assert environ == env;
    }

    method SetupCgi(r: CgiRequest, cgiIn: Stream, cgiOut: Stream) returns (saved: Saved)
      modifies this
      ensures SetupResult(State(), saved) == SetupSpec(old(State()), r, cgiIn, cgiOut)
    {
      var env := environ;          // the copy meant to be saved
      var si, so := stdin, stdout;
      env := BuildCgiEnv(r);
      ReplaceEnviron(env);
      stdout := cgiOut;
      stdin := cgiIn;
      argv := [];
      saved := Saved(env, si, so);
    }

    method RestoreNoCgi(saved: Saved)
      modifies this
      ensures State() == RestoreSpec(old(State()), saved)
    {
      ReplaceEnviron(saved.environ);
      stdout := saved.stdin;
      stdin := saved.stdout;
    }
  }
}
