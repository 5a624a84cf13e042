# Host identity and package dispatch of the ops toolbox

This project models the core of `file/ops_toolbox.py`, an interactive Linux
bootstrap tool. The core works out what the host is and runs the right
package manager for it:

- **os-release parsing** (`read_system_info`): the lines of `/etc/os-release`
  become a key-to-value map. Lines without `=` are skipped. Each other line is
  stripped and split at its first `=`. The value has surrounding whitespace and
  then every surrounding `"` removed, and a later key overwrites an earlier one.
  `ID`, `VERSION_ID`, `VERSION_CODENAME` and `PRETTY_NAME` are then read, each
  defaulting to `"unknown"`.
- **classification** (`detect_system_family`): the lower-cased id is looked up
  in the Debian list (`ubuntu`, `debian`, `linuxmint`, `pop`) and the RedHat
  list (`centos`, `rocky`, `almalinux`, `rhel`, `fedora`, `ol`). Debian means
  apt. RedHat means dnf from release 8 on and yum before it. When the release
  does not parse as an integer, the answer of `which dnf` decides. Anything
  else is family and manager `unknown` and not supported.
- **install façade** (`PackageManager.install_packages` over
  `run_system_command`): apt runs `apt update -y`, ignores its result, then
  runs `apt install -y <packages>`. yum and dnf run `<pm> install -y <packages>`.
  Any other manager runs nothing and fails. The result is the install command's.
- **static-IP branch** (`config_static_ip`): nmcli, ifcfg scripts, netplan or
  nothing, chosen from the same record.

The modules are:

- `PyText` gives Python's `str.strip()`, `str.strip('"')`, `str.lower()`,
  `split('=', 1)`, `split('.')[0]` and `int()`.
- `Identity` holds the record and the classifier.
- `OsRelease` holds the parser. The loop method `ReadSystemInfo` is proved
  equal to the functional specification `Resolve`.
- `PackageOps` holds the executor class and the `PackageManager` class.
- `StaticIp` holds the network branch.

The `which dnf` probe is the boolean parameter `dnfOnPath`. Running a command
is the `Executor` class. It appends every argument vector to its `log` and
takes the host's answer to the k-th run from an oracle, `outcome(k)`.

Points where the model follows the code rather than a looser reading of it:

- `strip('"')` removes every leading and trailing `"`, not a single pair.
- `system_type` keeps the id exactly as written. Only the classification
  lower-cases it.
- The network branch compares the raw id with `rocky`/`almalinux`, without
  lower-casing.
- `install_packages` does not reject an empty package list. It runs the tool
  with no package arguments.
- A key is the stripped line's text before its first `=`. So `ID = x` defines
  the key `"ID "`, not `ID`.

## Model

| member | source | states |
|---|---|---|
| `PyText.TrimStartFacts` | file/ops_toolbox.py:143 | `lstrip` keeps a suffix of the text. Everything it removes is of the class, and what is left does not start with one. |
| `PyText.TrimEndFacts` | file/ops_toolbox.py:143 | `rstrip` keeps a prefix of the text. Everything it removes is of the class, and what is left does not end with one. |
| `PyText.Trim` | file/ops_toolbox.py:145 | The result of `strip` neither starts nor ends with a character of the stripped class. |
| `PyText.TrimFacts` | file/ops_toolbox.py:145 | The result of `strip` is one contiguous slice of the input. Only characters of the class lie before and after it, so the interior is untouched. |
| `PyText.TrimKeeps` | file/ops_toolbox.py:141-143 | A character outside the class survives `strip`. So a line that contains `=` still contains it after `line.strip()`, and the two-way split always succeeds. |
| `PyText.TrimUnchanged` | file/ops_toolbox.py:145 | Stripping text that neither starts nor ends with a character of the class changes nothing. |
| `PyText.TrimUnique` | file/ops_toolbox.py:145 | Any slice framed by characters of the class, and not itself starting or ending with one, is the `strip` result. |
| `PyText.Strip` | file/ops_toolbox.py:143 | `line.strip()` neither starts nor ends with whitespace (Python's `str.isspace()` set). |
| `PyText.Lower` | file/ops_toolbox.py:198 | The model's ASCII lower-casing keeps the length. |
| `PyText.LowerIdempotent` | file/ops_toolbox.py:198 | Lower-casing twice is the same as lower-casing once. |
| `PyText.FirstIndex` | file/ops_toolbox.py:143 | The result is the position of the first occurrence of the character. |
| `PyText.SplitOnce` | file/ops_toolbox.py:143 | `split(sep, 1)` gives the text before the first separator, which holds no separator, and the whole rest after it. |
| `PyText.BeforeFirstDot` | file/ops_toolbox.py:224 | `split('.')[0]` is a prefix without '.'. It is the whole text, or it is followed by a '.'. |
| `PyText.BeforeFirstDotOfPrefix` | file/ops_toolbox.py:224 | For text `a` followed by nothing or by a '.' part, `split('.')[0]` is `a`. |
| `PyText.ParseInt` | file/ops_toolbox.py:224 | `int()` only succeeds on text that, once its own whitespace is gone, starts with a digit or sign and ends with a digit. That whitespace excludes U+001C to U+001F. |
| `PyText.DecimalString` | file/ops_toolbox.py:224 | A release number written in decimal has a '-' exactly when it is negative, and is otherwise made of its `DigitCount` digits. |
| `PyText.ParseIntRoundTrip` | file/ops_toolbox.py:224 | In the model, parsing inverts decimal printing for every integer of at most 4300 digits, negative ones included. A longer one is refused, as CPython's default digit limit refuses it. |
| `PyText.IntKeepsSeparators` | file/ops_toolbox.py:224 | `"\x1c7"` strips to `"7"`, yet `int()` refuses it. `" 7\n"` parses as 7. |
| `PyText.NoDigitNoInt` | file/ops_toolbox.py:224 | `int()` fails on text without any digit, such as `unknown` or `Stream`. |
| `Identity.Detect` | file/ops_toolbox.py:178-251 | Supported iff the family is known. Debian iff the lower-cased id is in the Debian list, and then apt. RedHat iff it is in the RedHat list, and then yum or dnf. For RedHat, dnf iff the parsed major release is at least 8, or, when it does not parse, iff dnf is on the PATH. Unknown means manager unknown. |
| `Identity.Identify` | file/ops_toolbox.py:157-164 | The record keeps the four fields as read, and its family, manager and support flag satisfy the classification invariant. |
| `Identity.DetectIgnoresCase` | file/ops_toolbox.py:198-216 | An id and its lower-cased form classify identically. |
| `Identity.ProbeOnlyAsFallback` | file/ops_toolbox.py:222-236 | The dnf probe changes the outcome exactly when the id is RedHat and the release does not parse. |
| `Identity.MajorVersion` | file/ops_toolbox.py:224 | `int(version.split('.')[0])` is the parse of the text before the first '.', or of the whole version when it has no '.'. |
| `Identity.RedHatManagerByRelease` | file/ops_toolbox.py:222-236 | A RedHat release written `n` or `n.<rest>` gets dnf when `n >= 8` and yum otherwise, whatever the probe says. Only a number beyond `int()`'s 4300-digit limit leaves the choice to the probe. |
| `Identity.SeparatorReleaseUsesProbe` | file/ops_toolbox.py:222-236 | For a RedHat id with release `"\x1c7"`, `int()` fails and the probe decides between dnf and yum. |
| `Identity.RedHatWithoutVersion` | file/ops_toolbox.py:222-236 | A RedHat host whose version is the default `unknown` gets dnf exactly when dnf is on the PATH. |
| `OsRelease.CleanValue` | file/ops_toolbox.py:145 | A stored value never starts or ends with `"`. |
| `OsRelease.SplitLine` | file/ops_toolbox.py:141-145 | A line yields an entry iff it contains `=`. The entry's key contains no `=`. |
| `OsRelease.SplitLineAt` | file/ops_toolbox.py:141-145 | A line whose stripped text is `key=rest`, with no `=` in `key`, yields exactly `key` and the cleaned `rest`. |
| `OsRelease.AddLine` | file/ops_toolbox.py:141-145 | A line without `=` leaves the map unchanged. Any other line adds exactly its own key to the map's keys. |
| `OsRelease.ParseLines` | file/ops_toolbox.py:138-145 | The map built by the loop never has a key containing `=`. |
| `OsRelease.Field` | file/ops_toolbox.py:148-151 | `dict.get(key, 'unknown')`: the stored value when the key is present, `unknown` otherwise. |
| `OsRelease.Resolve` | file/ops_toolbox.py:133-164 | The record's family, manager and support flag are consistent. A host is supported only when the file has an `ID` line. |
| `OsRelease.AddLineAt` | file/ops_toolbox.py:141-145 | One line sets exactly the key it defines, to its value. A line without `=`, or one defining another key, leaves a key as it was. |
| `OsRelease.ReadSystemInfo` | file/ops_toolbox.py:133-164 | The parse loop, the four lookups and the classification give exactly `Resolve(lines, dnfOnPath)`. |
| `OsRelease.ParsedIsLastValue` | file/ops_toolbox.py:138-145 | The parsed map holds, for each key, the value of the last line defining it, and nothing for keys no line defines. |
| `OsRelease.DefinedKeyPresent` | file/ops_toolbox.py:138-145 | A key defined by any line is in the map. |
| `OsRelease.PresentKeyDefined` | file/ops_toolbox.py:138-145 | A key in the map was defined by some line. |
| `OsRelease.KeyPresentIffDefined` | file/ops_toolbox.py:138-145 | A key is in the map iff some line defines it. |
| `OsRelease.LastDefinitionWins` | file/ops_toolbox.py:138-145 | If line `i` defines a key and no later line does, the map holds line `i`'s value for it. |
| `OsRelease.ResolvedFields` | file/ops_toolbox.py:148-151 | `system_type`, `system_version`, `system_codename` and `system_name` are the last values of `ID`, `VERSION_ID`, `VERSION_CODENAME` and `PRETTY_NAME`. Each is `unknown` when absent. |
| `OsRelease.ResolvedClassification` | file/ops_toolbox.py:148-164 | Family, manager and support flag are the classification of the last `ID` and `VERSION_ID` values, with their defaults. |
| `OsRelease.ResolveEmptyFile` | file/ops_toolbox.py:148-164 | An empty file gives all four fields `unknown`, family and manager `unknown`, and not supported. |
| `OsRelease.SplitAfterKey` | file/ops_toolbox.py:143 | Splitting `key=rest` at the first `=` gives back `key` and `rest` when the key has no `=`. |
| `OsRelease.StripQuotedLine` | file/ops_toolbox.py:143 | Stripping a line `KEY="value"` plus newline removes only the newline. |
| `OsRelease.CleanQuoted` | file/ops_toolbox.py:145 | The stored value of `"value"` is `value`, when `value` neither starts nor ends with `"`. |
| `OsRelease.QuotedLineRoundTrip` | file/ops_toolbox.py:141-145 | Reading the line `KEY="value"` gives back exactly the key and the unquoted value, including inner spaces and `=`. |
| `OsRelease.QuotedValueRead` | file/ops_toolbox.py:138-145 | A key written `KEY="value"` and not redefined later is read as `value`, without quotes. |
| `PackageOps.Executor.Run` | file/ops_toolbox.py:17-54 | A run appends the argument vector to the log. It reports success exactly when the host's answer for that run is exit status 0, so a missing program and a non-zero exit both give false. |
| `PackageOps.InstallPlan` | file/ops_toolbox.py:293-306 | apt gives two commands and yum/dnf give one; any other manager gives none. Each command starts with the manager's name and has `-y` third. apt's first command is the 3-word `update`. The last command is `install` with the packages, in order, as its trailing arguments. |
| `PackageOps.PackageManager.constructor` | file/ops_toolbox.py:269-279 | The object's fields are the record's manager, family and id, fixed from then on. |
| `PackageOps.PackageManager.InstallPackages` | file/ops_toolbox.py:281-306 | The executor's log grows by exactly the plan, in order, whatever the host answers. The result is the install command's success, and false when nothing is run. |
| `StaticIp.NetworkRelease` | file/ops_toolbox.py:411-414 | The release is the parsed major version when there is one, otherwise 8. A release below 8 is always one the version states. |
| `StaticIp.ChooseNetworkSetup` | file/ops_toolbox.py:404-417 | Debian hosts get netplan and unknown ones nothing. RedHat hosts get nmcli whenever the release does not parse, and always for `rocky`/`almalinux`. |
| `StaticIp.NmcliGoesWithDnf` | file/ops_toolbox.py:410-417 | For a RedHat host whose release parses, nmcli is chosen iff the manager is dnf or the id is `rocky`/`almalinux`. |
| `StaticIp.FallbacksDisagree` | file/ops_toolbox.py:410-417 | For a RedHat host whose release does not parse and that has no dnf, the manager is yum but the network branch is nmcli. The two fallbacks use different defaults. |

## Left out

- Opening `/etc/os-release` and splitting it into lines are left out. The
  parser takes the lines, each possibly still ending in its newline. The exits
  on a missing or unreadable file (file/ops_toolbox.py:168-175) and all
  printing are not modelled either.
- `check_command_exists` (file/ops_toolbox.py:57-82) is only the answer it
  gives, the parameter `dnfOnPath`. Running `which` is not modelled.
- `PackageOps.Executor.Run`: exceptions other than `FileNotFoundError` and
  `CalledProcessError` propagate in Python and are not modelled. The
  `work_directory` argument and the output streamed to the terminal are also
  not modelled. The host's answers are an oracle, so the model says nothing
  about what the package managers themselves do.
- `PackageOps.Executor.Run` requires a non-empty argument vector. Python fails
  with an uncaught `IndexError` on an empty one, and no caller passes one.
- `PyText.Lower` lower-cases ASCII letters only. Python also maps non-ASCII
  letters, and a few of them map into ASCII: U+212A KELVIN SIGN becomes `k`,
  so Python lower-cases `ROCKY` to `rocky` while the model does not.
- `PyText.ParseInt` applies CPython's default limit of 4300 digits (since 3.11,
  and in patched 3.7-3.10 releases). Older interpreters have no limit, and
  `PYTHONINTMAXSTRDIGITS` or `sys.set_int_max_str_digits` can change it, so
  for such long numbers the outcome depends on the interpreter.
- `PyText.ParseInt` accepts ASCII digits only. Python's `int()` also accepts
  the other Unicode decimal digits.
- `detect_system_family` takes `system_name` but never uses it, so the model
  omits that parameter.
- The platform and root checks (file/ops_toolbox.py:85-110) query the host and
  are not modelled.
- The interface listing (`get_network_interface_list`,
  file/ops_toolbox.py:314-338) is not modelled. The same goes for the address
  prompts, IP validation and netmask-to-prefix conversion in
  `config_static_ip`, including the early returns they cause, and for the
  configuration it writes. Only its branch choice is modelled.
- Mirror switching, firewall/SELinux toggling, the MySQL and Docker
  installers, system inspection and the menus (file/ops_toolbox.py:576-1210)
  are file writes, shell plumbing and interactive UI, and are not modelled.
- The webhook notifier `file/wechat.py` and the site's sidebar script are not
  part of this model.
