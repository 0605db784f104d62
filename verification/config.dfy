/** The registry constants of `src/fields/config.py`: the field-name to
    API-name map, the manual and automatic field lists, the option lists and
    the keys of the command table. */
module Config {
  import opened Text

  /** `ALL_FIELDS_API_NAMES`. */
  const ApiNames: map<string, string> := map[
    "CRID" := "Computer_Reach_ID__c",
    "has_webcam" := "Webcam_present__c",
    "video_ports" := "Video__c",
    "num_usb_ports" := "USB__c",
    "adapter_watts" := "Adapter_Watts__c",
    "final_os" := "Final_Operating_System__c",
    "model_name" := "Processor_Speed__c",
    "RAM" := "RAM_Total_MB__c",
    "storage" := "Hard_Drive_GB__c",
    "screen_size" := "Screen_Size__c",
    "battery_health" := "Battery_Health__c",
    "has_ethernet" := "Ethernet_present__c",
    "has_wifi" := "WiFi_present__c",
    "has_optical_drive" := "Optical_Drive_present__c",
    "has_touchscreen" := "TouchScreen_Works__c"
  ]

  /** `MANUAL_FIELDS`. */
  const ManualFieldNames: seq<string> :=
    ["CRID", "has_webcam", "video_ports", "num_usb_ports", "adapter_watts", "final_os"]

  /** `FINAL_OS_OPTIONS`. */
  const FinalOsOptions: seq<string> := ["20.04_Xubuntu_Linux"]

  /** `VIDEO_PORT_OPTIONS`. */
  const VideoPortOptions: seq<string> :=
    ["VGA", "DVI", "HDMI", "Mini-HDMI", "Display Port", "Mini-Display"]

  /** `AUTO_FIELDS`. */
  const AutoFieldNames: seq<string> :=
    ["model_name", "RAM", "storage", "screen_size", "battery_health",
     "has_ethernet", "has_wifi", "has_optical_drive", "has_touchscreen"]

  /** `AUTO_FIELDS_LINUX_COMMANDS`: each field's pipeline stages. */
  const AutoCommands: map<string, seq<string>> := map[
    "model_name" := ["cat /proc/cpuinfo", "grep 'model name'"],
    "RAM" := ["cat /proc/meminfo", "numfmt --field 2 --from-unit=Ki --to-unit=Gi",
              "sed 's/ kB/G/g'", "grep 'MemTotal'", "awk '{print $2}'"],
    "storage" := ["lsblk -I 8 -d -n --output SIZE"],
    "screen_size" := ["xrandr --current", "grep ' connected'"],
    "battery_health" := ["upower -i `upower -e | grep 'BAT'`", "grep 'capacity'",
                         "awk '{print $2}'", "grep ."],
    "has_ethernet" := ["lspci", "grep 'ethernet' -i"],
    "has_wifi" := ["lspci", "grep 'network|wireless' -i -E"],
    "has_optical_drive" := ["dmesg", "grep 'cdrom|cd-rom|dvd' -i -E"],
    "has_touchscreen" := ["xinput list", "grep 'touchscreen' -i"]
  ]

  /** The API name the identifier lookup is keyed on. */
  const CridApiName: string := "Computer_Reach_ID__c"

  /** Every configured manual or automatic field has an API name. */
  lemma ConfiguredNamesAreMapped()
    ensures forall n :: n in ManualFieldNames ==> n in ApiNames
    ensures forall n :: n in AutoFieldNames ==> n in ApiNames
    ensures ApiNames["CRID"] == CridApiName
  {
  }

  /** The manual and automatic lists split the API map's keys between them:
      disjoint, and together exactly its key set. */
  lemma FieldListsPartitionApiNames()
    ensures forall n :: n in ManualFieldNames ==> n !in AutoFieldNames
    ensures forall n :: n in ApiNames <==> (n in ManualFieldNames || n in AutoFieldNames)
  {
  }

  /** Neither field list names a field twice. */
  lemma FieldListsDistinct()
    ensures NoDuplicates(ManualFieldNames) && NoDuplicates(AutoFieldNames)
  {
  }

  /** Every automatic field has a command pipeline. */
  lemma AutoFieldsHaveCommands()
    ensures forall n :: n in AutoFieldNames ==> n in AutoCommands
  {
  }

  /** The field each API name belongs to: `ALL_FIELDS_API_NAMES` read
      backwards. */
  const FieldOfApiName: map<string, string> := map[
    "Computer_Reach_ID__c" := "CRID",
    "Webcam_present__c" := "has_webcam",
    "Video__c" := "video_ports",
    "USB__c" := "num_usb_ports",
    "Adapter_Watts__c" := "adapter_watts",
    "Final_Operating_System__c" := "final_os",
    "Processor_Speed__c" := "model_name",
    "RAM_Total_MB__c" := "RAM",
    "Hard_Drive_GB__c" := "storage",
    "Screen_Size__c" := "screen_size",
    "Battery_Health__c" := "battery_health",
    "Ethernet_present__c" := "has_ethernet",
    "WiFi_present__c" := "has_wifi",
    "Optical_Drive_present__c" := "has_optical_drive",
    "TouchScreen_Works__c" := "has_touchscreen"
  ]

  /** Reading an API name backwards gives the field it came from. */
  lemma FieldOfApiNameInverts()
    ensures forall a :: a in ApiNames ==> ApiNames[a] in FieldOfApiName && FieldOfApiName[ApiNames[a]] == a
  {
  }

  /** No two fields share an API name, so a record never merges two fields. */
  lemma ApiNamesInjective()
    ensures forall a, b :: a in ApiNames && b in ApiNames && a != b ==> ApiNames[a] != ApiNames[b]
  {
    FieldOfApiNameInverts();
  }

  /** The option lists have no repeated entry and no entry holding the
      picklist separator `;`. */
  lemma OptionListsWellFormed()
    ensures NoDuplicates(FinalOsOptions) && NoDuplicates(VideoPortOptions)
    ensures forall k :: 0 <= k < |VideoPortOptions| ==> ';' !in VideoPortOptions[k]
    ensures forall k :: 0 <= k < |FinalOsOptions| ==> ';' !in FinalOsOptions[k]
  {
  }
}
