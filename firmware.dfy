/**
 * The firmware package model: metadata, supported devices and the ordered list of
 * partition bindings (FileInfo). Only the parts the frontend's decisions read are
 * modelled; the manifest format and archive handling are not.
 */
module Firmware {

  import opened Pit

  /** A binding of a partition slot to a source file; an empty filename means "not chosen yet". */
  datatype FileInfo = FileInfo(partitionId: uint32, filename: string)

  datatype PlatformInfo = PlatformInfo(name: string, version: string)

  datatype DeviceInfo = DeviceInfo(manufacturer: string, product: string, name: string)

  datatype FirmwareInfo = FirmwareInfo(
    name: string,
    version: string,
    platform: PlatformInfo,
    developers: seq<string>,
    url: string,
    donateUrl: string,
    devices: seq<DeviceInfo>,
    pitFilename: string,
    repartition: bool,
    noReboot: bool,
    fileInfos: seq<FileInfo>)

  /** FirmwareInfo::Clear: every field empty or false. */
  const ClearedFirmware := FirmwareInfo("", "", PlatformInfo("", ""), [], "", "", [], "", false, false, [])

  /** The flash-enable rule: at least one binding, and every binding has a file. */
  predicate ReadyToFlash(files: seq<FileInfo>)
  {
    |files| > 0 && forall i :: 0 <= i < |files| ==> files[i].filename != ""
  }

  /**
   * The scan in UpdateFlashInterfaceAvailability: stop at the first binding without a
   * file, then require a non-empty list.
   */
  method ValidFlashSettings(files: seq<FileInfo>) returns (valid: bool)
    ensures valid <==> ReadyToFlash(files)
  {
    var allPartitionsValid := true;
    var i := 0;
    while i < |files|
      invariant 0 <= i <= |files|
      invariant allPartitionsValid <==> forall j :: 0 <= j < i ==> files[j].filename != ""
    {
      if files[i].filename == "" {
        allPartitionsValid := false;
        i := i + 1;
        break;
      }
      i := i + 1;
    }
    valid := allPartitionsValid && |files| > 0;
  }

  /** The create-package rule: the metadata needed to build a package is filled in. */
  predicate FieldsPopulated(fw: FirmwareInfo)
  {
    !(fw.name == "" || fw.version == "" || fw.platform.name == "" || fw.platform.version == ""
      || fw.developers == [] || fw.devices == [])
  }
}
