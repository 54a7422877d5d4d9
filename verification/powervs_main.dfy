/**
 The `main` of the PowerVS manager: the name is cut to what PowerVS
 accepts, `create` deletes whatever the failed creation left behind and
 re-raises, `delete` deletes, and every `Exception` becomes exit status 1.
 Reading the credentials is I/O and comes in as its result.
 */
module PowerVSMain {
  import opened Errors
  import opened Wrappers
  import opened Names
  import opened Credentials
  import opened PowerVSClient
  import opened PowerVSBody
  import opened PowerVSCalls
  import opened PowerVSCreate
  import opened PowerVSDelete

  /** The exit status of an exception that reaches `main`'s outer handler:
      `sys.exit(code)` passes through it, any `Exception` becomes 1, so a
      failure other than an explicit exit is never reported as success. */
  function ExitStatus(e: Exc): (r: int)
    ensures IsException(e) ==> r == 1
    ensures r == 0 ==> e == SystemExit(0)
    ensures !IsException(e) ==> r == e.code
  {
    if e.SystemExit? then e.code else 1
  }

  /** What one run of the script did: its steps, the line it printed, its exit status. */
  datatype Run = Run(steps: seq<Step>, printed: Option<string>, status: int)

  /** The `create` branch, with the `PowerVS name` already applied. */
  function CreateBranch(name: string, opts: PowerVSOptions, cw: CreateVmWorld, dw: DeleteVmWorld): (r: Run)
    ensures r.printed.Some? <==> CreateVm(name, opts, cw).1.Ok?
    ensures CreateVm(name, opts, cw).1.Ok? ==> r.status == 0 && r.printed == Some(CreateVm(name, opts, cw).1.value)
    ensures CreateVm(name, opts, cw).1.Ok? ==> r.steps == CreateVm(name, opts, cw).0
  {
    var created := CreateVm(name, opts, cw);
    assert created == CreateVm(name, opts, cw);
    match created.1
    case Ok(ip) => Run(created.0, Some(ip), 0)
    case Err(e) =>
      if IsException(e) then
        var deleted := DeleteVm(name, dw);
        Run(created.0 + deleted.0, None,
            if deleted.1.Err? && deleted.1.exc.SystemExit? then deleted.1.exc.code else 1)
      else Run(created.0, None, e.code)
  }

  /** `main()` for the subcommand given on the command line. */
  function Main(subcommand: string, rawName: string, credentials: Result<Credentials>,
                opts: PowerVSOptions, cw: CreateVmWorld, dw: DeleteVmWorld): (r: Run)
    ensures credentials.Err? ==> r == Run([], None, ExitStatus(credentials.exc))
    ensures credentials.Ok? && NewClient(credentials.value).Err? ==> r == Run([], None, ExitStatus(NewClient(credentials.value).exc))
    ensures credentials.Ok? && NewClient(credentials.value).Ok? && subcommand != "create" && subcommand != "delete"
            ==> r == Run([], None, 1)
    ensures r.printed.Some? ==> subcommand == "create" && r.status == 0
  {
    var name := PowervsName(rawName);
    match credentials
    case Err(e) => Run([], None, ExitStatus(e))
    case Ok(c) =>
      match NewClient(c)
      case Err(e) => Run([], None, ExitStatus(e))
      case Ok(_) =>
        if subcommand == "create" then
          CreateBranch(name, opts, cw, dw)
        else if subcommand == "delete" then
          var deleted := DeleteVm(name, dw);
          Run(deleted.0, None, if deleted.1.Ok? then 0 else ExitStatus(deleted.1.exc))
        else Run([], None, 1)
  }

  /** The rollback: `delete_vm` runs for the same PowerVS name exactly when
      `create_vm` raised an `Exception`, and the run then ends with status 1
      unless the clean-up itself exited. */
  lemma RollbackIffCreateRaised(name: string, opts: PowerVSOptions, cw: CreateVmWorld, dw: DeleteVmWorld)
    ensures var created := CreateVm(name, opts, cw);
            var r := CreateBranch(name, opts, cw, dw);
            && (Api(ListInstancesCall()) in r.steps <==> created.1.Err? && IsException(created.1.exc))
            && (created.1.Err? && IsException(created.1.exc) ==> r.steps == created.0 + DeleteVm(name, dw).0)
            && (created.1.Err? && IsException(created.1.exc) && !(DeleteVm(name, dw).1.Err? && DeleteVm(name, dw).1.exc.SystemExit?)
                ==> r.status == 1)
  {
    var created := CreateVm(name, opts, cw);
    CreateVmNeverLists(name, opts, cw);
    if created.1.Err? && IsException(created.1.exc) {
      var deleted := DeleteVm(name, dw);
      assert (created.0 + deleted.0)[|created.0|] == deleted.0[0];
    }
  }
}
