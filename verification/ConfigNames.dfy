/** The names of the settings in the file and in the boot environment. */
module ConfigNames {
  import opened Basics
  import opened ConfigValues

  /** What a recognised section and key set. */
  datatype Target = Shell(x: Variable) | DiagnosticReport

  /** The keys the reader lets through. */
  predicate IsAllowed(section: string, key: string) {
    || (section == "USB_ETHERNET" && key in {"hostname", "ipaddr", "ipaddr_host", "netmask", "usb_ethernet_mode"})
    || (section == "NETWORK" && key in {"mode", "ipaddr", "ipaddr_eth", "netmask", "netmask_eth", "gateway", "eth_gateway"})
    || (section == "SYSTEM" && key in {"xo_correction", "udc_handle_suspend"})
    || (section == "ACTIONS" && key == "diagnostic_report")
  }

  /** The variable that the import assigns. */
  function Meaning(section: string, key: string): Option<Target> {
    if section == "USB_ETHERNET" then UsbTarget(key)
    else if section == "NETWORK" then NetworkTarget(key)
    else if section == "SYSTEM" then SystemTarget(key)
    else if section == "ACTIONS" && key == "diagnostic_report" then Some(DiagnosticReport)
    else None
  }

  function UsbTarget(key: string): Option<Target> {
    if key == "hostname" then Some(Shell(UsbHostname))
    else if key == "ipaddr" then Some(Shell(UsbIpaddr))
    else if key == "ipaddr_host" then Some(Shell(UsbIpaddrHost))
    else if key == "netmask" then Some(Shell(UsbNetmask))
    else if key == "usb_ethernet_mode" then Some(Shell(UsbEthernetMode))
    else None
  }

  function NetworkTarget(key: string): Option<Target> {
    if key == "mode" then Some(Shell(NetworkMode))
    else if key == "ipaddr" || key == "ipaddr_eth" then Some(Shell(NetworkIpaddr))
    else if key == "netmask" || key == "netmask_eth" then Some(Shell(NetworkNetmask))
    else if key == "gateway" || key == "eth_gateway" then Some(Shell(NetworkGateway))
    else None
  }

  function SystemTarget(key: string): Option<Target> {
    if key == "xo_correction" then Some(Shell(XoCorrection))
    else if key == "udc_handle_suspend" then Some(Shell(UdcHandleSuspend))
    else None
  }

  /** Whatever is let through is assigned, and nothing else could be. */
  lemma AllowedIsMeant(section: string, key: string)
    ensures IsAllowed(section, key) <==> Meaning(section, key).Some?
  {
  }

  function SectionName(x: Variable): string {
    match x
    case UsbHostname => "USB_ETHERNET"
    case UsbIpaddr => "USB_ETHERNET"
    case UsbIpaddrHost => "USB_ETHERNET"
    case UsbNetmask => "USB_ETHERNET"
    case UsbEthernetMode => "USB_ETHERNET"
    case NetworkMode => "NETWORK"
    case NetworkIpaddr => "NETWORK"
    case NetworkNetmask => "NETWORK"
    case NetworkGateway => "NETWORK"
    case XoCorrection => "SYSTEM"
    case UdcHandleSuspend => "SYSTEM"
  }

  /** The key an export writes. */
  function KeyName(x: Variable): string {
    match x
    case UsbHostname => "hostname"
    case UsbIpaddr => "ipaddr"
    case UsbIpaddrHost => "ipaddr_host"
    case UsbNetmask => "netmask"
    case UsbEthernetMode => "usb_ethernet_mode"
    case NetworkMode => "mode"
    case NetworkIpaddr => "ipaddr_eth"
    case NetworkNetmask => "netmask_eth"
    case NetworkGateway => "eth_gateway"
    case XoCorrection => "xo_correction"
    case UdcHandleSuspend => "udc_handle_suspend"
  }

  /** Every exported key is one that the import takes, for the same variable. */
  lemma ExportedKeyIsMeant(x: Variable)
    ensures Meaning(SectionName(x), KeyName(x)) == Some(Shell(x))
  {
  }

  /** The name in the boot environment. */
  function EnvName(x: Variable): string {
    match x
    case UsbHostname => "hostname"
    case UsbIpaddr => "ipaddr"
    case UsbIpaddrHost => "ipaddr_host"
    case UsbNetmask => "netmask"
    case UsbEthernetMode => "usb_ethernet_mode"
    case NetworkMode => "network_mode"
    case NetworkIpaddr => "ipaddr_eth"
    case NetworkNetmask => "netmask_eth"
    case NetworkGateway => "eth_gateway"
    case XoCorrection => "xo_correction"
    case UdcHandleSuspend => "udc_handle_suspend"
  }

  lemma EnvNamesDiffer(x: Variable, y: Variable)
    ensures x != y ==> EnvName(x) != EnvName(y)
    ensures EnvName(x) != "qspiboot"
  {
  }
}
