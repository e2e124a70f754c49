/** `App\Events\PatientEvent`: the broadcast a patient mutation emits. */
module PatientEvents {
  import opened Records

  /** `new PrivateChannel($name)`. */
  datatype Channel = PrivateChannel(name: string)

  /** A value of the broadcast payload: the `type` string or the patient record. */
  datatype PayloadValue = Text(text: string) | PatientData(patient: Patient)

  /**
   * The event's three private fields: `$type` (create, update, delete), `$squad_id` (which
   * the constructor stores already prefixed) and `$patient`.
   */
  datatype PatientEvent = PatientEvent(kind: string, channelName: string, patient: Patient)

  const ChannelPrefix: string := "squad."

  /** The constructor: `$this->squad_id = 'squad.' . $squad_id`. */
  function NewPatientEvent(squadId: Id, patient: Patient, kind: string): (e: PatientEvent)
    ensures |e.channelName| == |ChannelPrefix| + |squadId|
    ensures e.channelName[..|ChannelPrefix|] == ChannelPrefix && e.channelName[|ChannelPrefix|..] == squadId
    ensures e.kind == kind && e.patient == patient
  {
    PatientEvent(kind, ChannelPrefix + squadId, patient)
  }

  /** `broadcastOn()`: the private channel named by the stored channel name. */
  function BroadcastOn(e: PatientEvent): Channel
  {
    PrivateChannel(e.channelName)
  }

  /** `broadcastAs()`. */
  function BroadcastAs(e: PatientEvent): (name: string)
    ensures name == "patient-event"
  {
    "patient-event"
  }

  /** `broadcastWith()`: exactly the keys `type` and `patient`. */
  function BroadcastWith(e: PatientEvent): (payload: map<string, PayloadValue>)
    ensures payload.Keys == {"type", "patient"}
    ensures payload["type"] == Text(e.kind) && payload["patient"] == PatientData(e.patient)
  {
    map["type" := Text(e.kind), "patient" := PatientData(e.patient)]
  }

  // ------------------------------------------------------------------ properties

  /** An event built for squad `s` broadcasts on `squad.<s>` under the name `patient-event`. */
  lemma EventChannelAndName(s: Id, p: Patient, kind: string)
    ensures BroadcastOn(NewPatientEvent(s, p, kind)) == PrivateChannel("squad." + s)
    ensures BroadcastAs(NewPatientEvent(s, p, kind)) == "patient-event"
    ensures BroadcastWith(NewPatientEvent(s, p, kind)) == map["type" := Text(kind), "patient" := PatientData(p)]
  {
  }

  /** Distinct squads broadcast on distinct channels. */
  lemma ChannelsSeparateSquads(s1: Id, s2: Id, p1: Patient, p2: Patient, k1: string, k2: string)
    requires s1 != s2
    ensures BroadcastOn(NewPatientEvent(s1, p1, k1)) != BroadcastOn(NewPatientEvent(s2, p2, k2))
  {
    var n1, n2 := NewPatientEvent(s1, p1, k1).channelName, NewPatientEvent(s2, p2, k2).channelName;
    assert n1[|ChannelPrefix|..] == s1 && n2[|ChannelPrefix|..] == s2;
  }
}
