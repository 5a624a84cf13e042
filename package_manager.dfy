/**
 The uniform install operation (`PackageManager.install_packages`) and the
 command runner it goes through (`run_system_command`). The runner is an
 executor object that records every argument vector it is given; whether a
 run succeeds is the host's answer, supplied as an oracle.
 */
module PackageOps {
  import opened Identity

  /** How an invocation ended: the program ran and exited with `code`, or it could not be found. */
  datatype Status = Exited(code: int) | ProgramNotFound

  /** `run_system_command` reports success only for a program that ran and exited with status 0. */
  predicate Succeeded(s: Status) {
    s == Exited(0)
  }

  /** `run_system_command`: runs an argument vector, logs it, and reports whether it succeeded. */
  class Executor {
    /** The host's answer to the k-th invocation, counting from 0. */
    const outcome: nat -> Status
    /** Every argument vector run so far, in order. */
    var log: seq<seq<string>>

    constructor (outcome: nat -> Status)
      ensures this.outcome == outcome && log == []
    {
      this.outcome := outcome;
      log := [];
    }

    /**
     Runs `command` (its first element names the program). A program that is
     missing and a non-zero exit both give `false`; neither is raised further.
     */
    method Run(command: seq<string>) returns (ok: bool)
      requires command != []
      modifies this
      ensures log == old(log) + [command]
      ensures ok == Succeeded(outcome(|old(log)|))
    {
      ok := Succeeded(outcome(|log|));
      log := log + [command];
    }
  }

  /**
   The argument vectors `install_packages` runs for a manager, in order: apt
   refreshes its index and then installs, yum and dnf install directly, any
   other manager runs nothing. The packages are the trailing arguments of
   the install command, in the order given.
   */
  function InstallPlan(manager: Manager, packages: seq<string>): (plan: seq<seq<string>>)
    ensures |plan| == match manager
                      case Apt => 2
                      case Yum => 1
                      case Dnf => 1
                      case UnknownManager => 0
    ensures forall c :: c in plan ==> |c| >= 3 && c[0] == ManagerName(manager) && c[2] == "-y"
    ensures plan != [] ==> plan[|plan| - 1][1] == "install" && plan[|plan| - 1][3..] == packages
    ensures manager == Apt ==> plan[0][1] == "update" && |plan[0]| == 3
  {
    match manager
    case Apt => [["apt", "update", "-y"], ["apt", "install", "-y"] + packages]
    case Yum => [["yum", "install", "-y"] + packages]
    case Dnf => [["dnf", "install", "-y"] + packages]
    case UnknownManager => []
  }

  /** `PackageManager`: the manager-specific view of an identity record, fixed at construction. */
  class PackageManager {
    const systemInfo: SystemInfo
    const packageManager: Manager
    const systemFamily: Family
    const systemType: string

    constructor (systemInfo: SystemInfo)
      ensures this.systemInfo == systemInfo
      ensures packageManager == systemInfo.packageManager
      ensures systemFamily == systemInfo.systemFamily
      ensures systemType == systemInfo.systemType
    {
      this.systemInfo := systemInfo;
      packageManager := systemInfo.packageManager;
      systemFamily := systemInfo.systemFamily;
      systemType := systemInfo.systemType;
    }

    /**
     `install_packages`: runs the manager's plan through `executor` and
     returns the verdict of the install command (the last one run); the
     index refresh that apt runs first is never consulted. With no known
     manager nothing is run and the answer is `false`.
     */
    method InstallPackages(executor: Executor, packageList: seq<string>) returns (ok: bool)
      modifies executor
      ensures executor.log == old(executor.log) + InstallPlan(packageManager, packageList)
      ensures ok <==> InstallPlan(packageManager, packageList) != []
                      && Succeeded(executor.outcome(|executor.log| - 1))
    {
      if packageManager == Apt {
        var refreshed := executor.Run(["apt", "update", "-y"]);
        ok := executor.Run(["apt", "install", "-y"] + packageList);
        assert InstallPlan(Apt, packageList) == [["apt", "update", "-y"], ["apt", "install", "-y"] + packageList];
      } else if packageManager == Yum || packageManager == Dnf {
        ok := executor.Run([ManagerName(packageManager), "install", "-y"] + packageList);
        assert InstallPlan(packageManager, packageList) == [[ManagerName(packageManager), "install", "-y"] + packageList];
      } else {
        ok := false;
      }
    }
  }
}
