/**
 * VkResult codes and QVk_GetError (ref_vk/vk_common.c:2175-2207): the
 * renderer turns a result code into its symbolic name for error messages.
 * Codes are the values of the VkResult enumeration in vulkan_core.h.
 */
module VkResults {

  const VK_SUCCESS: int := 0
  const VK_NOT_READY: int := 1
  const VK_SUBOPTIMAL_KHR: int := 1000001003
  const VK_ERROR_OUT_OF_DATE_KHR: int := -1000001004

  /** The results QVk_GetError has a case for, in the order of its switch. */
  datatype Named =
    | NotReady | Timeout | EventSet | EventReset | Incomplete
    | ErrorOutOfHostMemory | ErrorOutOfDeviceMemory | ErrorInitializationFailed
    | ErrorDeviceLost | ErrorMemoryMapFailed | ErrorLayerNotPresent
    | ErrorExtensionNotPresent | ErrorFeatureNotPresent | ErrorIncompatibleDriver
    | ErrorTooManyObjects | ErrorFormatNotSupported | ErrorSurfaceLostKhr
    | ErrorNativeWindowInUseKhr | SuboptimalKhr | ErrorOutOfDateKhr
    | ErrorIncompatibleDisplayKhr | ErrorValidationFailedExt | ErrorInvalidShaderNv

  datatype Option<T> = None | Some(value: T)

  /** The enumerator's value. */
  function Code(n: Named): int
  {
    match n
    case NotReady => 1
    case Timeout => 2
    case EventSet => 3
    case EventReset => 4
    case Incomplete => 5
    case ErrorOutOfHostMemory => -1
    case ErrorOutOfDeviceMemory => -2
    case ErrorInitializationFailed => -3
    case ErrorDeviceLost => -4
    case ErrorMemoryMapFailed => -5
    case ErrorLayerNotPresent => -6
    case ErrorExtensionNotPresent => -7
    case ErrorFeatureNotPresent => -8
    case ErrorIncompatibleDriver => -9
    case ErrorTooManyObjects => -10
    case ErrorFormatNotSupported => -11
    case ErrorSurfaceLostKhr => -1000000000
    case ErrorNativeWindowInUseKhr => -1000000001
    case SuboptimalKhr => 1000001003
    case ErrorOutOfDateKhr => -1000001004
    case ErrorIncompatibleDisplayKhr => -1000003001
    case ErrorValidationFailedExt => -1000011001
    case ErrorInvalidShaderNv => -1000012000
  }

  /** The enumerator's name without its "VK_" prefix, as the switch stringises it. */
  function Name(n: Named): string
  {
    match n
    case NotReady => "NOT_READY"
    case Timeout => "TIMEOUT"
    case EventSet => "EVENT_SET"
    case EventReset => "EVENT_RESET"
    case Incomplete => "INCOMPLETE"
    case ErrorOutOfHostMemory => "ERROR_OUT_OF_HOST_MEMORY"
    case ErrorOutOfDeviceMemory => "ERROR_OUT_OF_DEVICE_MEMORY"
    case ErrorInitializationFailed => "ERROR_INITIALIZATION_FAILED"
    case ErrorDeviceLost => "ERROR_DEVICE_LOST"
    case ErrorMemoryMapFailed => "ERROR_MEMORY_MAP_FAILED"
    case ErrorLayerNotPresent => "ERROR_LAYER_NOT_PRESENT"
    case ErrorExtensionNotPresent => "ERROR_EXTENSION_NOT_PRESENT"
    case ErrorFeatureNotPresent => "ERROR_FEATURE_NOT_PRESENT"
    case ErrorIncompatibleDriver => "ERROR_INCOMPATIBLE_DRIVER"
    case ErrorTooManyObjects => "ERROR_TOO_MANY_OBJECTS"
    case ErrorFormatNotSupported => "ERROR_FORMAT_NOT_SUPPORTED"
    case ErrorSurfaceLostKhr => "ERROR_SURFACE_LOST_KHR"
    case ErrorNativeWindowInUseKhr => "ERROR_NATIVE_WINDOW_IN_USE_KHR"
    case SuboptimalKhr => "SUBOPTIMAL_KHR"
    case ErrorOutOfDateKhr => "ERROR_OUT_OF_DATE_KHR"
    case ErrorIncompatibleDisplayKhr => "ERROR_INCOMPATIBLE_DISPLAY_KHR"
    case ErrorValidationFailedExt => "ERROR_VALIDATION_FAILED_EXT"
    case ErrorInvalidShaderNv => "ERROR_INVALID_SHADER_NV"
  }

  /** The switch's case selection: which case label, if any, matches code. */
  function CaseOf(code: int): (r: Option<Named>)
    ensures r.Some? ==> Code(r.value) == code
  {
    if code == 1 then Some(NotReady)
    else if code == 2 then Some(Timeout)
    else if code == 3 then Some(EventSet)
    else if code == 4 then Some(EventReset)
    else if code == 5 then Some(Incomplete)
    else if code == -1 then Some(ErrorOutOfHostMemory)
    else if code == -2 then Some(ErrorOutOfDeviceMemory)
    else if code == -3 then Some(ErrorInitializationFailed)
    else if code == -4 then Some(ErrorDeviceLost)
    else if code == -5 then Some(ErrorMemoryMapFailed)
    else if code == -6 then Some(ErrorLayerNotPresent)
    else if code == -7 then Some(ErrorExtensionNotPresent)
    else if code == -8 then Some(ErrorFeatureNotPresent)
    else if code == -9 then Some(ErrorIncompatibleDriver)
    else if code == -10 then Some(ErrorTooManyObjects)
    else if code == -11 then Some(ErrorFormatNotSupported)
    else if code == -1000000000 then Some(ErrorSurfaceLostKhr)
    else if code == -1000000001 then Some(ErrorNativeWindowInUseKhr)
    else if code == 1000001003 then Some(SuboptimalKhr)
    else if code == -1000001004 then Some(ErrorOutOfDateKhr)
    else if code == -1000003001 then Some(ErrorIncompatibleDisplayKhr)
    else if code == -1000011001 then Some(ErrorValidationFailedExt)
    else if code == -1000012000 then Some(ErrorInvalidShaderNv)
    else None
  }

  const UNKNOWN: string := "<unknown>"

  /** QVk_GetError: "VK_" and the name for a listed code, "<unknown>" for every other code. */
  function GetError(code: int): (s: string)
    ensures s == UNKNOWN || (|s| > 3 && s[..3] == "VK_")
  {
    match CaseOf(code)
    case Some(n) => "VK_" + Name(n)
    case None => UNKNOWN
  }

  /** Every listed result has its own case: the case labels are the codes of the list. */
  lemma CaseOfCode(n: Named)
    ensures CaseOf(Code(n)) == Some(n)
  {
  }

  /** GetError names exactly the listed codes. */
  lemma GetErrorKnown(code: int)
    ensures GetError(code) != UNKNOWN <==> exists n :: Code(n) == code
  {
    if GetError(code) != UNKNOWN {
      assert Code(CaseOf(code).value) == code;
    } else {
      if exists n :: Code(n) == code {
        var n :| Code(n) == code;
        CaseOfCode(n);
      }
    }
  }

  /** The name GetError gives a listed code is that code's own name. */
  lemma GetErrorOfCode(n: Named)
    ensures GetError(Code(n)) == "VK_" + Name(n)
  {
    CaseOfCode(n);
  }

  /** VK_SUCCESS has no case of its own and falls to the default. */
  lemma SuccessIsUnknown()
    ensures GetError(VK_SUCCESS) == UNKNOWN
  {
  }

  /** Distinct codes that GetError knows get distinct names. */
  lemma GetErrorInjective(c1: int, c2: int)
    requires GetError(c1) != UNKNOWN && GetError(c1) == GetError(c2)
    ensures c1 == c2
  {
    var n1 := CaseOf(c1).value;
    var n2 := CaseOf(c2).value;
    assert Name(n1) == GetError(c1)[3..];
    NamedOfName(n1);
    NamedOfName(n2);
  }

  /**
   * The names differ in their length or in their seventh character, so
   * these two tell which case a name belongs to.
   */
  ghost function NamedOf(s: string): Option<Named>
  {
    if |s| == 9 && s[6] == 'A' then Some(NotReady)
    else if |s| == 7 && s[6] == 'T' then Some(Timeout)
    else if |s| == 9 && s[6] == 'S' then Some(EventSet)
    else if |s| == 11 && s[6] == 'R' then Some(EventReset)
    else if |s| == 10 && s[6] == 'L' then Some(Incomplete)
    else if |s| == 24 && s[6] == 'O' then Some(ErrorOutOfHostMemory)
    else if |s| == 26 && s[6] == 'O' then Some(ErrorOutOfDeviceMemory)
    else if |s| == 27 && s[6] == 'I' then Some(ErrorInitializationFailed)
    else if |s| == 17 && s[6] == 'D' then Some(ErrorDeviceLost)
    else if |s| == 23 && s[6] == 'M' then Some(ErrorMemoryMapFailed)
    else if |s| == 23 && s[6] == 'L' then Some(ErrorLayerNotPresent)
    else if |s| == 27 && s[6] == 'E' then Some(ErrorExtensionNotPresent)
    else if |s| == 25 && s[6] == 'F' then Some(ErrorFeatureNotPresent)
    else if |s| == 25 && s[6] == 'I' then Some(ErrorIncompatibleDriver)
    else if |s| == 22 && s[6] == 'T' then Some(ErrorTooManyObjects)
    else if |s| == 26 && s[6] == 'F' then Some(ErrorFormatNotSupported)
    else if |s| == 22 && s[6] == 'S' then Some(ErrorSurfaceLostKhr)
    else if |s| == 30 && s[6] == 'N' then Some(ErrorNativeWindowInUseKhr)
    else if |s| == 14 && s[6] == 'I' then Some(SuboptimalKhr)
    else if |s| == 21 && s[6] == 'O' then Some(ErrorOutOfDateKhr)
    else if |s| == 30 && s[6] == 'I' then Some(ErrorIncompatibleDisplayKhr)
    else if |s| == 27 && s[6] == 'V' then Some(ErrorValidationFailedExt)
    else if |s| == 23 && s[6] == 'I' then Some(ErrorInvalidShaderNv)
    else None
  }

  /** Every name reads back to its own case, so no two cases share a name. */
  lemma NamedOfName(n: Named)
    ensures NamedOf(Name(n)) == Some(n)
  {
    match n
    case NotReady =>
    case Timeout =>
    case EventSet =>
    case EventReset =>
    case Incomplete =>
    case ErrorOutOfHostMemory =>
    case ErrorOutOfDeviceMemory =>
    case ErrorInitializationFailed =>
    case ErrorDeviceLost =>
    case ErrorMemoryMapFailed =>
    case ErrorLayerNotPresent =>
    case ErrorExtensionNotPresent =>
    case ErrorFeatureNotPresent =>
    case ErrorIncompatibleDriver =>
    case ErrorTooManyObjects =>
    case ErrorFormatNotSupported =>
    case ErrorSurfaceLostKhr =>
    case ErrorNativeWindowInUseKhr =>
    case SuboptimalKhr =>
    case ErrorOutOfDateKhr =>
    case ErrorIncompatibleDisplayKhr =>
    case ErrorValidationFailedExt =>
    case ErrorInvalidShaderNv =>
  }
}
