/** Which riscv-tests binaries the build generates rules for: the directory
    listing (given here as a sequence of names) minus the objdump listings,
    minus the test families the emulator does not support. */
module RiscvTests {
  import opened Text

  /** The test families that are built. */
  const SupportedPrefixes: seq<string> := ["rv32ui-", "rv32ua-", "rv32um-", "rv32si-", "rv32mi-"]

  /** Two virtual-memory tests that are skipped although their family is
      supported. */
  const ExcludedPrefixes: seq<string> := ["rv32ui-v-sb", "rv32ui-v-lb"]

  /** `_is_supported(path)`: the exclusions first, then the supported
      families in order. */
  function IsSupported(path: string): bool {
    if StartsWith(path, "rv32ui-v-sb") then false
    else if StartsWith(path, "rv32ui-v-lb") then false
    else if StartsWith(path, "rv32ui-") then true
    else if StartsWith(path, "rv32ua-") then true
    else if StartsWith(path, "rv32um-") then true
    else if StartsWith(path, "rv32si-") then true
    else if StartsWith(path, "rv32mi-") then true
    else false
  }

  predicate HasPrefixIn(path: string, prefixes: seq<string>) {
    exists i :: 0 <= i < |prefixes| && StartsWith(path, prefixes[i])
  }

  /** Apart from the two exclusions, a name is supported exactly when it
      starts with one of the five family prefixes. */
  lemma SupportedIff(path: string)
    ensures IsSupported(path) <==> !HasPrefixIn(path, ExcludedPrefixes) && HasPrefixIn(path, SupportedPrefixes)
  {
    if StartsWith(path, "rv32ui-v-sb") || StartsWith(path, "rv32ui-v-lb") {
      assert StartsWith(path, "rv32ui-v-sb") ==> StartsWith(path, ExcludedPrefixes[0]);
      assert StartsWith(path, "rv32ui-v-lb") ==> StartsWith(path, ExcludedPrefixes[1]);
    } else if IsSupported(path) {
      if StartsWith(path, "rv32ui-") {
        assert StartsWith(path, SupportedPrefixes[0]);
      } else if StartsWith(path, "rv32ua-") {
        assert StartsWith(path, SupportedPrefixes[1]);
      } else if StartsWith(path, "rv32um-") {
        assert StartsWith(path, SupportedPrefixes[2]);
      } else if StartsWith(path, "rv32si-") {
        assert StartsWith(path, SupportedPrefixes[3]);
      } else {
        assert StartsWith(path, SupportedPrefixes[4]);
      }
    }
  }

  /** The two excluded names are rejected even though they are in the rv32ui
      family. */
  lemma ExclusionsRejected(path: string)
    requires StartsWith(path, "rv32ui-v-sb") || StartsWith(path, "rv32ui-v-lb")
    ensures !IsSupported(path)
    ensures StartsWith(path, "rv32ui-")
  {
    assert path[..7] == path[..11][..7];
  }

  /** `list_test_names`: the listing filtered by "not an objdump listing",
      then by `IsSupported`, in listing order. */
  function ListTestNames(files: seq<string>): (names: seq<string>)
    ensures forall i :: 0 <= i < |names| ==> !EndsWith(names[i], ".dump") && IsSupported(names[i])
    ensures IsSubsequence(names, files)
  {
    if files == [] then []
    else
      var rest := ListTestNames(files[1..]);
      if !EndsWith(files[0], ".dump") && IsSupported(files[0]) then [files[0]] + rest else rest
  }

  /** A name is listed exactly when it appears in the directory, is not an
      objdump listing and is supported. */
  lemma {:induction false} ListTestNamesMembers(files: seq<string>, x: string)
    ensures x in ListTestNames(files) <==> x in files && !EndsWith(x, ".dump") && IsSupported(x)
  {
    if files != [] {
      ListTestNamesMembers(files[1..], x);
      assert files == [files[0]] + files[1..];
    }
  }
}
