/** The closed value table of `WasherState` (wideq/washer.py:8-61) and its two
    directions: `ToString` gives a member's machine string (`member.value` in
    Python) and `FromString` is the partial constructor `WasherState(value)`,
    which fails instead of falling back to a default. */
module WasherStates {
  import opened Wrappers

  /** One constructor per enum member, in declaration order. */
  datatype WasherState =
    | NA | SPIN_NS | SPIN_400 | SPIN_600 | SPIN_800 | SPIN_1000 | SPIN_1200 | SPIN_1400 | SPIN_1600
    | SOIL_LIGHT | SOIL_NORMAL | SOIL_HEAVY
    | WTEMP_COLD | WTEMP_20 | WTEMP_30 | WTEMP_40 | WTEMP_60 | WTEMP_95
    | RINSE_NORMAL | RINSE_RINSEP | RINSE_RINSEPP | RINSE_NHOLD | RINSE_RINSEHOLD
    | ADD_DRAIN | COMPLETE | DETECTING | DETERGENT_AMOUNT | DRYING | END | ERROR_AUTO_OFF
    | FRESH_CARE | FROZEN_PREVENT_INITIAL | FROZEN_PREVENT_PAUSE | FROZEN_PREVENT_RUNNING
    | INITIAL | OFF | PAUSE | PRE_WASH | RESERVE | RINSING | RINSE_HOLD | RUNNING
    | SMART_DIAGNOSIS | SMART_DIAGNOSIS_DATA | SPINNING | TCL_ALARM_NORMAL | TUBCLEAN_COUNT_ALARM

  /** The member's value string, exactly as the enum table spells it. */
  function ToString(m: WasherState): string {
    match m
    case NA => "-"
    case SPIN_NS => "@WM_OPTION_SPIN_NO_SPIN_W"
    case SPIN_400 => "@WM_OPTION_SPIN_400_W"
    case SPIN_600 => "@WM_OPTION_SPIN_600_W"
    case SPIN_800 => "@WM_OPTION_SPIN_800_W"
    case SPIN_1000 => "@WM_OPTION_SPIN_1000_W"
    case SPIN_1200 => "@WM_OPTION_SPIN_1200_W"
    case SPIN_1400 => "@WM_OPTION_SPIN_1400_W"
    case SPIN_1600 => "@WM_OPTION_SPIN_1600_W"
    case SOIL_LIGHT => "@WM_OPTION_SOIL_LIGHT_W"
    case SOIL_NORMAL => "@WM_OPTION_SOIL_NORMAL_W"
    case SOIL_HEAVY => "@WM_OPTION_SOIL_HEAVY_W"
    case WTEMP_COLD => "@WM_OPTION_TEMP_COLD_W"
    case WTEMP_20 => "@WM_OPTION_TEMP_20_W"
    case WTEMP_30 => "@WM_OPTION_TEMP_30_W"
    case WTEMP_40 => "@WM_OPTION_TEMP_40_W"
    case WTEMP_60 => "@WM_OPTION_TEMP_60_W"
    case WTEMP_95 => "@WM_OPTION_TEMP_95_W"
    case RINSE_NORMAL => "@WM_OPTION_RINSE_NORMAL_W"
    case RINSE_RINSEP => "@WM_OPTION_RINSE_RINSE+_W"
    case RINSE_RINSEPP => "@WM_OPTION_RINSE_RINSE++_W"
    case RINSE_NHOLD => "@WM_OPTION_RINSE_NORMALHOLD_W"
    case RINSE_RINSEHOLD => "@WM_OPTION_RINSE_RINSE+HOLD_W"
    case ADD_DRAIN => "@WM_STATE_ADD_DRAIN_W"
    case COMPLETE => "@WM_STATE_COMPLETE_W"
    case DETECTING => "@WM_STATE_DETECTING_W"
    case DETERGENT_AMOUNT => "@WM_STATE_DETERGENT_AMOUNT_W"
    case DRYING => "@WM_STATE_DRYING_W"
    case END => "@WM_STATE_END_W"
    case ERROR_AUTO_OFF => "@WM_STATE_ERROR_AUTO_OFF_W"
    case FRESH_CARE => "@WM_STATE_FRESHCARE_W"
    case FROZEN_PREVENT_INITIAL => "@WM_STATE_FROZEN_PREVENT_INITIAL_W"
    case FROZEN_PREVENT_PAUSE => "@WM_STATE_FROZEN_PREVENT_PAUSE_W"
    case FROZEN_PREVENT_RUNNING => "@WM_STATE_FROZEN_PREVENT_RUNNING_W"
    case INITIAL => "@WM_STATE_INITIAL_W"
    case OFF => "@WM_STATE_POWER_OFF_W"
    case PAUSE => "@WM_STATE_PAUSE_W"
    case PRE_WASH => "@WM_STATE_PREWASH_W"
    case RESERVE => "@WM_STATE_RESERVE_W"
    case RINSING => "@WM_STATE_RINSING_W"
    case RINSE_HOLD => "@WM_STATE_RINSE_HOLD_W"
    case RUNNING => "@WM_STATE_RUNNING_W"
    case SMART_DIAGNOSIS => "@WM_STATE_SMART_DIAG_W"
    case SMART_DIAGNOSIS_DATA => "@WM_STATE_SMART_DIAGDATA_W"
    case SPINNING => "@WM_STATE_SPINNING_W"
    case TCL_ALARM_NORMAL => "TCL_ALARM_NORMAL"
    case TUBCLEAN_COUNT_ALARM => "@WM_STATE_TUBCLEAN_COUNT_ALRAM_W"
  }

  /** The only member whose value could be `s`: the value strings are told
      apart by their length and, within one length, by a single character
      (for lengths 21 and 22 after first telling "@WM_OPTION_" values from
      "@WM_STATE_" ones by their fifth character). */
  function Candidate(s: string): Option<WasherState>
  {
    match |s|
    case 1 => Some(NA)
    case 15 => Some(END)
    case 16 => Some(TCL_ALARM_NORMAL)
    case 17 => Some(PAUSE)
    case 18 => Some(DRYING)
    case 19 =>
      (match s[11]
       case 'N' => Some(INITIAL)
       case 'R' => Some(PRE_WASH)
       case 'E' => Some(RESERVE)
       case 'I' => Some(RINSING)
       case 'U' => Some(RUNNING)
       case _ => None)
    case 20 =>
      (match s[16]
       case '2' => Some(WTEMP_20)
       case '3' => Some(WTEMP_30)
       case '4' => Some(WTEMP_40)
       case '6' => Some(WTEMP_60)
       case '9' => Some(WTEMP_95)
       case 'T' => Some(COMPLETE)
       case 'N' => Some(SPINNING)
       case _ => None)
    case 21 =>
      if s[4] == 'O' then
        (match s[16]
         case '4' => Some(SPIN_400)
         case '6' => Some(SPIN_600)
         case '8' => Some(SPIN_800)
         case _ => None)
      else
        (match s[10]
         case 'A' => Some(ADD_DRAIN)
         case 'D' => Some(DETECTING)
         case 'F' => Some(FRESH_CARE)
         case 'P' => Some(OFF)
         case _ => None)
    case 22 =>
      if s[4] == 'O' then
        (match s[17]
         case '0' => Some(SPIN_1000)
         case '2' => Some(SPIN_1200)
         case '4' => Some(SPIN_1400)
         case '6' => Some(SPIN_1600)
         case 'O' => Some(WTEMP_COLD)
         case _ => None)
      else
        (match s[10]
         case 'R' => Some(RINSE_HOLD)
         case 'S' => Some(SMART_DIAGNOSIS)
         case _ => None)
    case 23 =>
      (match s[16]
       case 'L' => Some(SOIL_LIGHT)
       case 'H' => Some(SOIL_HEAVY)
       case _ => None)
    case 24 => Some(SOIL_NORMAL)
    case 25 =>
      (match s[17]
       case 'O' => Some(SPIN_NS)
       case 'N' => Some(RINSE_NORMAL)
       case 'R' => Some(RINSE_RINSEP)
       case _ => None)
    case 26 =>
      (match s[10]
       case '_' => Some(RINSE_RINSEPP)
       case 'E' => Some(ERROR_AUTO_OFF)
       case 'S' => Some(SMART_DIAGNOSIS_DATA)
       case _ => None)
    case 28 => Some(DETERGENT_AMOUNT)
    case 29 =>
      (match s[17]
       case 'N' => Some(RINSE_NHOLD)
       case 'R' => Some(RINSE_RINSEHOLD)
       case _ => None)
    case 32 =>
      (match s[10]
       case 'F' => Some(FROZEN_PREVENT_PAUSE)
       case 'T' => Some(TUBCLEAN_COUNT_ALARM)
       case _ => None)
    case 34 =>
      (match s[25]
       case 'I' => Some(FROZEN_PREVENT_INITIAL)
       case 'R' => Some(FROZEN_PREVENT_RUNNING)
       case _ => None)
    case _ => None
  }

  /** `WasherState(s)`: the member whose value is `s`, or `None` where Python
      raises `ValueError`. The candidate is confirmed by one full comparison. */
  function FromString(s: string): (r: Option<WasherState>)
    ensures r.Some? ==> ToString(r.value) == s
  {
    var c := Candidate(s);
    if c.Some? && ToString(c.value) == s then c else None
  }

  // Proved section by section of the table, a few members per proof.
  lemma CandidateOfSpinSpeeds(m: WasherState)
    requires m in {NA, SPIN_NS, SPIN_400, SPIN_600, SPIN_800, SPIN_1000, SPIN_1200, SPIN_1400, SPIN_1600}
    ensures Candidate(ToString(m)) == Some(m)
  {
    match m
    case NA =>
    case SPIN_NS =>
    case SPIN_400 =>
    case SPIN_600 =>
    case SPIN_800 =>
    case SPIN_1000 =>
    case SPIN_1200 =>
    case SPIN_1400 =>
    case SPIN_1600 =>
  }

  lemma CandidateOfSoilLevels(m: WasherState)
    requires m in {SOIL_LIGHT, SOIL_NORMAL, SOIL_HEAVY}
    ensures Candidate(ToString(m)) == Some(m)
  {
    match m
    case SOIL_LIGHT =>
    case SOIL_NORMAL =>
    case SOIL_HEAVY =>
  }

  lemma CandidateOfWaterTemps(m: WasherState)
    requires m in {WTEMP_COLD, WTEMP_20, WTEMP_30, WTEMP_40, WTEMP_60, WTEMP_95}
    ensures Candidate(ToString(m)) == Some(m)
  {
    match m
    case WTEMP_COLD =>
    case WTEMP_20 =>
    case WTEMP_30 =>
    case WTEMP_40 =>
    case WTEMP_60 =>
    case WTEMP_95 =>
  }

  lemma CandidateOfRinseOptions(m: WasherState)
    requires m in {RINSE_NORMAL, RINSE_RINSEP, RINSE_RINSEPP, RINSE_NHOLD, RINSE_RINSEHOLD}
    ensures Candidate(ToString(m)) == Some(m)
  {
    match m
    case RINSE_NORMAL =>
    case RINSE_RINSEP =>
    case RINSE_RINSEPP =>
    case RINSE_NHOLD =>
    case RINSE_RINSEHOLD =>
  }

  lemma CandidateOfPhasesA(m: WasherState)
    requires m in {ADD_DRAIN, COMPLETE}
    ensures Candidate(ToString(m)) == Some(m)
  {
    match m
    case ADD_DRAIN =>
    case COMPLETE =>
  }

  lemma CandidateOfPhasesB(m: WasherState)
    requires m in {DETECTING, DETERGENT_AMOUNT}
    ensures Candidate(ToString(m)) == Some(m)
  {
    match m
    case DETECTING =>
    case DETERGENT_AMOUNT =>
  }

  lemma CandidateOfPhasesC(m: WasherState)
    requires m in {DRYING, END}
    ensures Candidate(ToString(m)) == Some(m)
  {
    match m
    case DRYING =>
    case END =>
  }

  lemma CandidateOfPhasesD(m: WasherState)
    requires m in {ERROR_AUTO_OFF, FRESH_CARE}
    ensures Candidate(ToString(m)) == Some(m)
  {
    match m
    case ERROR_AUTO_OFF =>
    case FRESH_CARE =>
  }

  lemma CandidateOfPhasesE(m: WasherState)
    requires m in {FROZEN_PREVENT_INITIAL, FROZEN_PREVENT_PAUSE}
    ensures Candidate(ToString(m)) == Some(m)
  {
    match m
    case FROZEN_PREVENT_INITIAL =>
    case FROZEN_PREVENT_PAUSE =>
  }

  lemma CandidateOfPhasesF(m: WasherState)
    requires m in {FROZEN_PREVENT_RUNNING, INITIAL}
    ensures Candidate(ToString(m)) == Some(m)
  {
    match m
    case FROZEN_PREVENT_RUNNING =>
    case INITIAL =>
  }

  lemma CandidateOfPhasesG(m: WasherState)
    requires m in {OFF, PAUSE}
    ensures Candidate(ToString(m)) == Some(m)
  {
    match m
    case OFF =>
    case PAUSE =>
  }

  lemma CandidateOfPhasesH(m: WasherState)
    requires m in {PRE_WASH, RESERVE}
    ensures Candidate(ToString(m)) == Some(m)
  {
    match m
    case PRE_WASH =>
    case RESERVE =>
  }

  lemma CandidateOfPhasesI(m: WasherState)
    requires m in {RINSING, RINSE_HOLD}
    ensures Candidate(ToString(m)) == Some(m)
  {
    match m
    case RINSING =>
    case RINSE_HOLD =>
  }

  lemma CandidateOfPhasesJ(m: WasherState)
    requires m in {RUNNING, SMART_DIAGNOSIS}
    ensures Candidate(ToString(m)) == Some(m)
  {
    match m
    case RUNNING =>
    case SMART_DIAGNOSIS =>
  }

  lemma CandidateOfPhasesK(m: WasherState)
    requires m in {SMART_DIAGNOSIS_DATA, SPINNING}
    ensures Candidate(ToString(m)) == Some(m)
  {
    match m
    case SMART_DIAGNOSIS_DATA =>
    case SPINNING =>
  }

  lemma CandidateOfTclAlarm()
    ensures Candidate(ToString(TCL_ALARM_NORMAL)) == Some(TCL_ALARM_NORMAL)
  {
  }

  lemma CandidateOfTubCleanAlarm()
    ensures Candidate(ToString(TUBCLEAN_COUNT_ALARM)) == Some(TUBCLEAN_COUNT_ALARM)
  {
  }

  /** The candidate picked for a member's own value string is that member. */
  lemma CandidateOfToString(m: WasherState)
    ensures Candidate(ToString(m)) == Some(m)
  {
    if m in {NA, SPIN_NS, SPIN_400, SPIN_600, SPIN_800, SPIN_1000, SPIN_1200, SPIN_1400, SPIN_1600} { CandidateOfSpinSpeeds(m); }
    if m in {SOIL_LIGHT, SOIL_NORMAL, SOIL_HEAVY} { CandidateOfSoilLevels(m); }
    if m in {WTEMP_COLD, WTEMP_20, WTEMP_30, WTEMP_40, WTEMP_60, WTEMP_95} { CandidateOfWaterTemps(m); }
    if m in {RINSE_NORMAL, RINSE_RINSEP, RINSE_RINSEPP, RINSE_NHOLD, RINSE_RINSEHOLD} { CandidateOfRinseOptions(m); }
    if m in {ADD_DRAIN, COMPLETE} { CandidateOfPhasesA(m); }
    if m in {DETECTING, DETERGENT_AMOUNT} { CandidateOfPhasesB(m); }
    if m in {DRYING, END} { CandidateOfPhasesC(m); }
    if m in {ERROR_AUTO_OFF, FRESH_CARE} { CandidateOfPhasesD(m); }
    if m in {FROZEN_PREVENT_INITIAL, FROZEN_PREVENT_PAUSE} { CandidateOfPhasesE(m); }
    if m in {FROZEN_PREVENT_RUNNING, INITIAL} { CandidateOfPhasesF(m); }
    if m in {OFF, PAUSE} { CandidateOfPhasesG(m); }
    if m in {PRE_WASH, RESERVE} { CandidateOfPhasesH(m); }
    if m in {RINSING, RINSE_HOLD} { CandidateOfPhasesI(m); }
    if m in {RUNNING, SMART_DIAGNOSIS} { CandidateOfPhasesJ(m); }
    if m in {SMART_DIAGNOSIS_DATA, SPINNING} { CandidateOfPhasesK(m); }
    if m == TCL_ALARM_NORMAL { CandidateOfTclAlarm(); }
    if m == TUBCLEAN_COUNT_ALARM { CandidateOfTubCleanAlarm(); }
  }

  /** Decoding a member's own value string gives back that member. */
  lemma FromStringToString(m: WasherState)
    ensures FromString(ToString(m)) == Some(m)
  {
    CandidateOfToString(m);
  }

  /** No two members share a value string, so the value table is a bijection
      onto its image. */
  lemma ToStringInjective(a: WasherState, b: WasherState)
    ensures ToString(a) == ToString(b) <==> a == b
  {
    if ToString(a) == ToString(b) {
      FromStringToString(a);
      FromStringToString(b);
    }
  }

  /** `WasherState(s)` succeeds exactly on the value strings of the table, and
      then yields the member that carries `s`. */
  lemma FromStringSpec(s: string, m: WasherState)
    ensures FromString(s) == Some(m) <==> ToString(m) == s
    ensures FromString(s) == None <==> forall x :: ToString(x) != s
  {
    FromStringToString(m);
    if FromString(s) == None {
      forall x ensures ToString(x) != s {
        FromStringToString(x);
      }
    }
  }
}
