/**
 * The secret-set service's file replacement. The directory holds the target and a temp file, and any
 * step may fail or be the last before the process stops; seen from outside it is one atomic cell.
 */
module SecretFile {
  import opened Bytes

  const MODE: nat := 0x1A0 // 0640

  datatype File = File(content: string, mode: nat)

  /** The steps of one write. */
  datatype Step = Open | SetMode | Write | Sync | Rename

  /** What goes wrong in one request: nothing, an I/O error at a step, the process stopping at a step, or
      the process stopping after the work but before the reply. `written` is how much of the secret a
      broken write got out, and `cleaned` whether the best-effort removal of the temp file after a failed
      rename worked. */
  datatype Fault =
    | NoFault
    | IoError(at: Step, written: nat, cleaned: bool)
    | Stop(at: Step, written: nat)
    | StopBeforeReply

  datatype Written = Placed | Failed | Stopped

  datatype Response = Ok | Refused

  /** One request line, the fault that hits it, and the umask-reduced mode a new temp file starts with. */
  datatype Request = Request(line: seq<byte>, fault: Fault, openMode: nat)

  /** The request body a line parses to: provider and secret. */
  type Parser = seq<byte> -> Option<(string, string)>

  // ---- the atomic cell ----------------------------------------------------------------------------

  /** The secret of a request that is accepted: it parses, names the one provider and is not empty. */
  function Accepted(parse: Parser, line: seq<byte>): (r: Option<string>) {
    match parse(line)
    case None => None
    case Some((provider, secret)) => if provider == "auth0" && secret != "" then Some(secret) else None
  }

  /** Whether the request's rename happens. */
  predicate Places(parse: Parser, req: Request) {
    Accepted(parse, req.line).Some? && (req.fault == NoFault || req.fault == StopBeforeReply)
  }

  function CellAfter(parse: Parser, cell: Option<File>, req: Request): (r: Option<File>) {
    if Places(parse, req) then Some(File(Accepted(parse, req.line).value, MODE)) else cell
  }

  /** The answer; `None` when the process stopped. */
  function Answer(parse: Parser, req: Request): (r: Option<Response>) {
    if req.fault == StopBeforeReply then None
    else if Accepted(parse, req.line).None? then Some(Refused)
    else match req.fault
      case IoError(_, _, _) => Some(Refused)
      case Stop(_, _) => None
      case _ => Some(Ok)
  }

  function CellAfterAll(parse: Parser, cell: Option<File>, reqs: seq<Request>): (r: Option<File>) {
    if reqs == [] then cell else CellAfter(parse, CellAfterAll(parse, cell, reqs[..|reqs| - 1]), reqs[|reqs| - 1])
  }

  /** A temp file that holds any of the secret holds the beginning of it, at mode 0640. */
  predicate Guarded(temp: Option<File>, secret: string) {
    temp.Some? && temp.value.content != "" ==> temp.value.mode == 0x1A0 && temp.value.content <= secret
  }

  // ---- the directory ------------------------------------------------------------------------------

  class SecretDir {
    const parse: Parser
    var target: Option<File>
    var temp: Option<File>

    constructor (p: Parser, t: Option<File>, leftover: Option<File>)
      ensures parse == p && target == t && temp == leftover
    {
      parse, target, temp := p, t, leftover;
    }

    /** `write_secret_file`, for a path with a parent and a name. */
    method WriteSecretFile(secret: string, fault: Fault, openMode: nat) returns (r: Written)
      modifies this
      ensures r == match fault case IoError(_, _, _) => Failed case Stop(_, _) => Stopped case _ => Placed
      ensures target == if r == Placed then Some(File(secret, MODE)) else old(target)
      ensures r == Placed ==> temp == None
      ensures temp == old(temp) || Guarded(temp, secret)
    {
      var breaks := fault.IoError? || fault.Stop?;
      var bad := if fault.Stop? then Stopped else Failed;
      if breaks && fault.at == Open {
        return bad;
      }
      // create and truncate: an old temp file keeps its mode but none of its bytes
      temp := Some(File("", if temp.Some? then temp.value.mode else openMode));
      if breaks && fault.at == SetMode {
        return bad;
      }
      temp := Some(temp.value.(mode := MODE));
      var i := 0;
      while i < |secret|
        invariant i <= |secret| && temp == Some(File(secret[..i], MODE)) && target == old(target)
      {
        if breaks && fault.at == Write && i >= fault.written {
          return bad;
        }
        temp := Some(temp.value.(content := temp.value.content + [secret[i]]));
        i := i + 1;
        assert secret[..i] == secret[..i - 1] + [secret[i - 1]];
      }
      assert secret[..i] == secret;
      if breaks {
        if fault.at == Rename && fault.IoError? && fault.cleaned {
          temp := None;
        }
        return bad;
      }
      target, temp := temp, None;
      r := Placed;
    }

    /** `handle_request`: refuses without touching the directory, or writes. */
    method HandleRequest(req: Request) returns (r: Option<Response>)
      modifies this
      ensures target == CellAfter(parse, old(target), req)
      ensures r == Answer(parse, req)
    {
      var body := parse(req.line);
      if body.None? || body.value.0 != "auth0" || body.value.1 == "" {
        r := Some(Refused);
      } else {
        var w := WriteSecretFile(body.value.1, req.fault, req.openMode);
        r := match w case Placed => Some(Ok) case Failed => Some(Refused) case Stopped => None;
      }
      if req.fault == StopBeforeReply {
        r := None;
      }
    }

    /** A serial sequence of requests, across restarts, whatever a temp file held before. */
    method HandleAll(reqs: seq<Request>) returns (answers: seq<Option<Response>>)
      modifies this
      ensures target == CellAfterAll(parse, old(target), reqs)
      ensures |answers| == |reqs| && forall i | 0 <= i < |reqs| :: answers[i] == Answer(parse, reqs[i])
    {
      answers := [];
      for i := 0 to |reqs|
        invariant target == CellAfterAll(parse, old(target), reqs[..i])
        invariant |answers| == i && forall k | 0 <= k < i :: answers[k] == Answer(parse, reqs[k])
      {
        var a := HandleRequest(reqs[i]);
        answers := answers + [a];
        assert reqs[..i + 1][..i] == reqs[..i];
      }
      assert reqs[..|reqs|] == reqs;
    }
  }

  // ---- what the cell promises ---------------------------------------------------------------------

  ghost predicate NonePlaces(parse: Parser, reqs: seq<Request>, from: nat) {
    forall i | from <= i < |reqs| :: !Places(parse, reqs[i])
  }

  /** The target always holds the file it had or one complete accepted secret at mode 0640: that of the
      last request whose rename happened. */
  lemma {:induction false} TargetIsWhole(parse: Parser, cell: Option<File>, reqs: seq<Request>)
    ensures var after := CellAfterAll(parse, cell, reqs);
            || (after == cell && NonePlaces(parse, reqs, 0))
            || exists k :: 0 <= k < |reqs| && Places(parse, reqs[k]) && NonePlaces(parse, reqs, k + 1)
                           && after == Some(File(Accepted(parse, reqs[k].line).value, MODE))
  {
    if reqs != [] {
      var front, n := reqs[..|reqs| - 1], |reqs| - 1;
      TargetIsWhole(parse, cell, front);
      if Places(parse, reqs[n]) {
        assert NonePlaces(parse, reqs, n + 1);
      } else if NonePlaces(parse, front, 0) {
        assert forall i | 0 <= i < n :: front[i] == reqs[i];
      } else {
        var k :| 0 <= k < n && Places(parse, front[k]) && NonePlaces(parse, front, k + 1)
                 && CellAfterAll(parse, cell, front) == Some(File(Accepted(parse, front[k].line).value, MODE));
        assert forall i | 0 <= i < n :: front[i] == reqs[i];
        assert NonePlaces(parse, reqs, k + 1);
      }
    }
  }

  /** `Ok` means the target now holds exactly the secret sent, and `Refused` that it is unchanged. */
  lemma AnswerIsTrue(parse: Parser, cell: Option<File>, req: Request)
    ensures Answer(parse, req) == Some(Ok) ==>
              parse(req.line).Some? && CellAfter(parse, cell, req) == Some(File(parse(req.line).value.1, MODE))
    ensures Answer(parse, req) == Some(Refused) ==> CellAfter(parse, cell, req) == cell
  {
  }

  /** Which requests end how: `Ok` for a parsed request of the provider auth0 with a secret when nothing goes
      wrong, no answer when the process stops, and `Refused` for every other; and the target changes exactly
      when such a request got as far as the rename. */
  lemma AnswersExactly(parse: Parser, cell: Option<File>, req: Request)
    ensures var good := parse(req.line).Some? && parse(req.line).value.0 == "auth0" && parse(req.line).value.1 != "";
            && (Answer(parse, req) == Some(Ok) <==> good && req.fault == NoFault)
            && (Answer(parse, req) == None <==> req.fault == StopBeforeReply || (good && req.fault.Stop?))
            && (Answer(parse, req) == Some(Refused) <==>
                  (good && req.fault.IoError?) || (!good && req.fault != StopBeforeReply))
            && CellAfter(parse, cell, req) ==
                 if good && (req.fault == NoFault || req.fault == StopBeforeReply)
                 then Some(File(parse(req.line).value.1, 0x1A0)) else cell
  {
  }
}
