# libwdi installer library: a Dafny model

This project models the core of `lib/installer_library.c`. That is the part of libwdi (libusb's Windows driver installer) that does the following:

- finds USB devices that have no driver;
- builds a linked list of `driver_info` records for them;
- writes the driver's `.inf` file and the co-installer files;
- launches the elevated installer;
- serves that installer's requests over a named pipe until the installer finishes.

Windows answers the library's calls. In the model, each such answer is an input. The model writes the code's own logic over those inputs and proves what the code promises.

The model has seven modules, one per file:

| module | file | what it models |
|---|---|---|
| `Common` | `common.dfy` | `Option`, the C integer widths, the `strlen` view of a string, `INF_NAME` |
| `DeviceIdentity` | `identity.dfy` | the `strtok` split of a device path on `\`, `#` and `&`, and the `VID_`/`PID_`/`MI_` prefix loop, as a function and as a method with loops |
| `DriverScan` | `scan.dfy` | `list_driverless` and `free_di`, as heap code over a `DriverInfo` node class with a `next` field, against a list-valued specification |
| `GuidText` | `guid.dfy` | `guid_to_string` and a parser for its output |
| `InfWriter` | `inf.dfy` | `extract_binaries` (a method with a loop) and `create_inf` (the lines it writes) |
| `Dispatcher` | `dispatch.dfy` | `process_message` |
| `Installer` | `installer.dfy` | `run_installer`, as an `InstallerSession` class whose `Run` method consumes a finite sequence of read and wait outcomes |

Several methods are proved against a function that specifies them. `ParseIdentity` is proved against `IdentityOf`. `ListDriverless` is proved against `Scan`, `ExtractBinaries` against `Extract`, and `InstallerSession.Run` against `Expected`. Lemmas then prove properties of those functions.

Five behaviours of the code that a reader might not expect, and that the model keeps:

- **Prefix matching is case-sensitive.** The `VID_`/`PID_`/`MI_` test is `safe_strncmp` at `lib/installer_library.c:208`, so `HasPrefix` compares characters exactly.
- **A failed lookup keeps its node.** The node is allocated and linked in at `lib/installer_library.c:153-163`, before the `CM_Get_Device_IDA` lookup; when the lookup fails, `lib/installer_library.c:167-171` only does `continue`. The device keeps its node, with no device id, no description and empty fields. `FailedLookupKeepsNode` states this.
- **The device id is its `strlen` prefix.** `_strdup` at `lib/installer_library.c:175` and `strtok` at `lib/installer_library.c:205` both stop at the first NUL of the id buffer, so `RecordFor` stores and tokenises `CString` of the id.
- **No default description.** `lib/installer_library.c:304` writes `DeviceName` from `desc` as it is.
- **The `extract_binaries` result is ignored.** `lib/installer_library.c:289` calls it as a statement, and the inf file is written whatever it returned.

Some definitions live in headers that are not part of this model: `installer_library.h`, `infs.h`, `usbi.h`, and the `safe_*` helpers. The model assumes the following about them:

- `USE_WINUSB` is 0 and `USE_LIBUSB` is 1.
- `IC_GET_DEVICE_ID` is 0 and `IC_PRINT_MESSAGE` is 1.
- The capacities of the `vid`, `pid` and `mi` fields are parameters (`FieldSizes`).
- `safe_strcpy` copies at most size-1 characters.
- `safe_closehandle` closes any handle that is not `INVALID_HANDLE_VALUE`, and then resets it.

## Model

| member | source | states |
|---|---|---|
| Common.CString | lib/installer_library.c:332 | The `strlen` prefix: it is a prefix of the string, contains no NUL, and stops at the end or at the first NUL. |
| DeviceIdentity.Tokens | lib/installer_library.c:205-226 | Every token `strtok` yields is non-empty and contains none of `\`, `#`, `&`. |
| DeviceIdentity.TokensCoverText | lib/installer_library.c:205-226 | The tokens, put back together, are the path with every delimiter removed. No character is lost or added. |
| DeviceIdentity.TokensOfJoin | lib/installer_library.c:205-226 | Joining well-formed tokens with any delimiters and splitting the result gives exactly those tokens back. |
| DeviceIdentity.Bounded | lib/installer_library.c:211-217 | The `safe_strcpy` copy is a prefix of the token, at most size-1 characters long, and the whole token when the token fits. |
| DeviceIdentity.ParseIdentity | lib/installer_library.c:205-226 | After the token loop, each of `vid`, `pid` and `mi` is the bounded copy of the last token with its prefix, or empty if no token has it. |
| DeviceIdentity.LastMatchIsLast | lib/installer_library.c:206-226 | The match is absent exactly when no token has the prefix. Otherwise it is the last token that has the prefix. |
| DeviceIdentity.LastMatchConcat | lib/installer_library.c:206-226 | A later matching token overrides every earlier one. |
| DeviceIdentity.IgnoredToken | lib/installer_library.c:207-223 | A token without the prefix changes nothing. |
| DeviceIdentity.IdentityFieldsDelimFree | lib/installer_library.c:205-226 | The stored `vid`, `pid` and `mi` never contain a delimiter. |
| DeviceIdentity.ExamplePath | lib/installer_library.c:205-226 | On `USB\VID_1234&PID_5678\6&abc`, `vid` is `VID_1234`, `pid` is `PID_5678` and `mi` stays empty. |
| DriverScan.RecordFields | lib/installer_library.c:165-226 | A failed id lookup leaves the zero-filled record. Otherwise the record holds the NUL-free `strlen` prefix of the id and the version-dependent description, and each of `vid`, `pid` and `mi` is empty when no token of the id has its prefix, and otherwise the bounded copy of the last token that has it. |
| DriverScan.ScanIsFilterMap | lib/installer_library.c:133-163 | The list has one record per driverless entry, in enumeration order, and no record for an entry with a driver. If any driverless entry's allocation fails, the result is NULL. |
| DriverScan.ScanFailureSticks | lib/installer_library.c:153-157 | Once an allocation has failed, later entries do not change the NULL result. |
| DriverScan.FailedLookupKeepsNode | lib/installer_library.c:165-172 | When the second of three driverless devices fails its id lookup, three records come back, and the middle one has no id. |
| DriverScan.DriverInfo.constructor | lib/installer_library.c:153 | `calloc` gives a node with a NULL `next` and zero-filled fields. |
| DriverScan.Heap.Calloc | lib/installer_library.c:153 | The new node is fresh and zero-filled, and it joins the live set. |
| DriverScan.Heap.Free | lib/installer_library.c:89 | Exactly that node leaves the live set. |
| DriverScan.FreeList | lib/installer_library.c:83-91 | `free_di` frees every node reachable from `start` through `next`, and nothing else. |
| DriverScan.Append | lib/installer_library.c:153-163 | The new node becomes the head of an empty list or the successor of the tail. The records already in the list are unchanged. |
| DriverScan.AddRecord | lib/installer_library.c:153-226 | For a driverless device whose allocation succeeds, the chain grows by one fresh node at its tail, which holds the device's record, and the records before it are unchanged. |
| DriverScan.FillRecord | lib/installer_library.c:165-226 | After the rest of the loop body, the node holds `RecordFor` of its entry. |
| DriverScan.ListDriverless | lib/installer_library.c:105-230 | Without an enumeration handle, or after a failed allocation, the result is NULL and the heap is as before. Otherwise the result is a fresh chain that holds exactly the records of the scan, in order. |
| GuidText.Hex | lib/installer_library.c:75 | `%0NX`: exactly N characters, all of them upper-case hex digits. |
| GuidText.ParseHexOfHex | lib/installer_library.c:75-78 | Reading a rendered number back in base 16 gives the number. |
| GuidText.HexOfParseHex | lib/installer_library.c:75-78 | Every upper-case hex text is the rendering of the number it denotes. |
| GuidText.GuidToString | lib/installer_library.c:71-80 | The text is 38 characters long. |
| GuidText.GuidToStringLayout | lib/installer_library.c:75-78 | The text is `{`, then Data1 in 8 digits, `-`, Data2 in 4 digits, `-`, Data3 in 4 digits, `-`, Data4[0..1], `-`, Data4[2..7], then `}`. That is the 8-4-4-4-12 layout of section 3 of RFC 4122. |
| GuidText.GuidRoundTrip | lib/installer_library.c:71-80 | Parsing the text gives the same GUID back. |
| GuidText.GuidTextCanonical | lib/installer_library.c:71-80 | Every text the parser accepts is the rendering of the GUID it returns. |
| GuidText.GuidToStringInjective | lib/installer_library.c:71-80 | Two GUIDs give the same text exactly when they are equal. |
| InfWriter.ExtractBinaries | lib/installer_library.c:233-264 | The loop over `resource[]` returns and writes exactly what `Extract` specifies. |
| InfWriter.ExtractWritesUpToFailure | lib/installer_library.c:233-264 | Every resource before the first failing one is written to `path\subdir\name` with its own data. The result is 0 exactly when no resource fails, and -1 otherwise. |
| InfWriter.ExtractFailureSticks | lib/installer_library.c:246-256 | After the first failure, no later resource is looked at. |
| InfWriter.DeviceIdRoundTrip | lib/installer_library.c:305-310 | The `DeviceID` value `vid&pid[&mi]` splits on `&` back into its fields. |
| InfWriter.StringsSection | lib/installer_library.c:301-311 | Six lines come before the driver template. |
| InfWriter.StringsSectionReadsBack | lib/installer_library.c:301-311 | From the lines, `DeviceName` reads back as the description verbatim, `DeviceID` as vid, pid and the optional mi, and `DeviceGUID` as the GUID. |
| InfWriter.ScannedRecordReadsBack | lib/installer_library.c:305-310 | For a record that the scan filled, the `DeviceID` line always splits back into its fields. |
| InfWriter.CreateInf | lib/installer_library.c:268-318 | A NULL path or record gives -1 before the file system is touched. The resource files are extracted only after the directory check passes, and then exactly those `Extract` writes. The result is 0 exactly when the directory and the inf file are available, whatever the type and the extraction result. The file written has the six lines and template `inf[type]`. |
| InfWriter.CreateInfChecked | lib/installer_library.c:279-289 | The intended version: an inf file is written only for a type in 0..1, and only when every resource was extracted. Resources are extracted only for a valid type and after the directory check. |
| InfWriter.CheckedAgreesOnValidInput | lib/installer_library.c:279-289 | On a valid type with a successful extraction, the two versions agree. |
| InfWriter.TypeGuardLetsTwoThrough | lib/installer_library.c:279-281 | As written, type 2 passes the check and the file appends `inf[2]`. The corrected check rejects type 2 before touching the file system. |
| InfWriter.ExtractionFailureIgnored | lib/installer_library.c:289 | As written, a failed extraction still gives 0 and an inf file, with fewer resource files written than there are resources. The corrected version gives -1 and no inf file. |
| Dispatcher.ProcessMessage | lib/installer_library.c:321-346 | The result is -1 for an empty frame, for a print request without payload, and for an unknown tag, and 0 otherwise. Only a device-id request writes, and it writes the `strlen` characters of the device id. |
| Dispatcher.EchoesDeviceId | lib/installer_library.c:330-333 | A device id without NUL is written back byte for byte, with nothing added. |
| Installer.InstallerSession.Close | lib/installer_library.c:476-480 | `safe_closehandle` closes and resets a handle that is not INVALID, and leaves the other handles alone. |
| Installer.InstallerSession.Dispatch | lib/installer_library.c:428-430 | The frame is dispatched, and its pipe write, if any, is appended. |
| Installer.InstallerSession.Cleanup | lib/installer_library.c:476-480 | `handle[0]`, `handle[1]` and the pipe are closed in that order, and all three end up INVALID. |
| Installer.InstallerSession.ServeLoop | lib/installer_library.c:426-475 | The read loop dispatches the frames that `Serve` specifies, and waits for the process exactly on a broken pipe. |
| Installer.InstallerSession.Run | lib/installer_library.c:349-481 | The outcome, the launch request, the frames, the writes, the wait and the closed handles are those of `Expected`. After a return no handle is left open. |
| Installer.ServeCharacterised | lib/installer_library.c:426-475 | Every data frame before the first broken pipe or process exit is dispatched, in order, and nothing after it. The loop leaves exactly on such an event, and it waits unless the event was the process exit. |
| Installer.WritesEchoDeviceId | lib/installer_library.c:332 | Each device-id request causes exactly one write, and every write is the device id. |
| Installer.SetupFailureReturnsError | lib/installer_library.c:379-423 | The installer is launched only once the pipe and the event exist. A failed pipe or event, or a NULL `hProcess` after the launch, gives -1 with nothing read. |
| Installer.LaunchTarget | lib/installer_library.c:394-413 | The launch is `runas` on `path\installer_x64.exe` exactly when the library is 64-bit or runs under WOW64, and on `path\installer_x86.exe` otherwise. It passes the inf name and runs in `path`. |
| Installer.ServingUntilTerminal | lib/installer_library.c:426-475 | Once launched, the call returns 0 exactly when a broken pipe or process exit comes; until then it keeps serving. Every write is the device id. |
| Installer.HandlesReleased | lib/installer_library.c:476-480 | Every return closes each slot at most once, in the order event, process, pipe: the pipe whenever it was created, the process only when the launch succeeded, and the event slot whenever the pipe was created, even when `CreateEvent` returned NULL, so `safe_closehandle` passes NULL to `CloseHandle`. A session that is still serving has closed nothing. |
| Installer.RejectedFrameKeepsSession | lib/installer_library.c:334-338 | A print request without payload gets -1 but does not end the session. A following device-id request is still answered. |

## Left out

- The SetupAPI and Cfgmgr32 enumeration and property reads, `GetVersionEx`, and DLL loading are foreign OS calls. Their answers are the inputs `Entry` and `Platform`.
- `wchar_to_utf8` is not modelled. The description comes in already converted.
- `safe_strcat` truncation is not modelled, because its definition is not part of this model. Names built with it (`ExeName`, `ResourcePath`, `InfFor`) are not cut at `MAX_PATH_LENGTH`. Likewise, a device id longer than `MAX_PATH_LENGTH` is taken whole.
- The `resource[]` and `inf[]` blobs are opaque data. Resource data is carried as bytes. The template is recorded as its index `inf[type]`.
- File I/O (`_access`, `CreateDirectory`, `fopen`, `fwrite`, `fclose`) is not performed. Whether it succeeds is an input, and what would be written is returned as a value.
- `CoCreateGuid` returns a random GUID, so the GUID is a parameter.
- `CreateNamedPipe`, `CreateEvent`, `ShellExecuteEx`, `IsWow64Process`, `ReadFile`, `GetOverlappedResult`, `WaitForMultipleObjects`, `WaitForSingleObject` and `Sleep` are OS primitives. Their results are inputs. The blocking wait for the installer becomes the `waitedForExit` flag.
- The elevated installer process runs concurrently and is not modelled. Its behaviour is the finite event sequence. If the sequence ends without a terminal event, the outcome is `Serving`.
- Logging (`usbi_dbg`, `usbi_warn`, `usbi_err`, `windows_error_str`) is diagnostic only and is not modelled.
- `strtok`'s hidden static state and `guid_to_string`'s static buffer are replaced by returned values.
- Dispatcher.ProcessMessage: the diagnostic text is modelled as all payload bytes. `%s` on `buffer+1` would stop at the first NUL, and could run past `rd_count` because the buffer is not terminated.
- InfWriter.CreateInf: requires a description when a record is given. A node whose id lookup failed has a NULL `desc`, and printing it with `%s` is undefined behaviour.
- InfWriter.StringsSection: the line breaks are not modelled. The section is a sequence of lines.

## Findings

| source | as written | input that shows it | evidently intended | confidence | as-written member | corrected member |
|---|---|---|---|---|---|---|
| lib/installer_library.c:279 | `(type < USE_WINUSB) && (type > USE_LIBUSB)` can never hold, so no type is rejected | type 2, with a record, a path, a usable directory and an inf file that opens: 0 is returned and `inf[2]` is appended | `\|\|`: reject any type outside 0..1 | high; not executed | InfWriter.TypeGuardLetsTwoThrough | InfWriter.CreateInfChecked |
| lib/installer_library.c:289 | the result of `extract_binaries` is discarded | a resource whose subdirectory cannot be created, with the inf file opening: 0 is returned and the inf file is written without its co-installers | return -1 when extraction fails | medium; not executed | InfWriter.ExtractionFailureIgnored | InfWriter.CreateInfChecked |
