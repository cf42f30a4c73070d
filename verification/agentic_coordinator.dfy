/**
 * The discharge coordinator: the cleaning queue with its three-state lifecycle,
 * the active-patient registry, the discharge transaction that moves a patient
 * from the registry to a cleaning task at the head of the queue, and the
 * dismissal of suggested actions.
 */
module AgenticCoordinator {
  import opened Wrappers

  datatype Protocol = Rapido | Terminal

  datatype Priority = Alta | Media | Baja

  /** PENDIENTE, EN_PROCESO, LISTA. */
  datatype TaskStatus = Pendiente | EnProceso | Lista

  /** A bed waiting to be cleaned; `estimatedTime` is in minutes. */
  datatype CleaningTask = CleaningTask(
    id: string,
    bedNumber: string,
    protocol: Protocol,
    reasoning: string,
    priority: Priority,
    estimatedTime: int,
    status: TaskStatus,
    patientContext: string)

  /**
   * The cleaning classifier's answer as it reaches the coordinator. It comes from
   * an external service, so each field may be missing or falsy: a missing protocol
   * is `None`, an empty reasoning is "", a missing or zero estimate is `None` or `Some(0)`.
   */
  datatype CleaningAnalysis = CleaningAnalysis(
    protocol: Option<Protocol>,
    reasoning: string,
    estimatedMinutes: Option<int>)

  datatype PatientStatus = Hospitalizado | PreAlta

  datatype Patient = Patient(
    id: string,
    name: string,
    age: int,
    diagnosis: string,
    bedNumber: string,
    status: PatientStatus,
    clinicalNotes: string)

  /** The drafted discharge summary; its content is produced elsewhere and not inspected here. */
  datatype EpicrisisResult = EpicrisisResult(text: string)

  /** A suggested action extracted from free text; `details` stands for the rest of the record. */
  datatype UnstructuredInsight = UnstructuredInsight(actionItem: string, details: string)

  /** The registry the coordinator starts with. */
  const MockPatients: seq<Patient> := [
    Patient("p1", "J.P.L.", 68, "Neumonía (No Aislamiento)", "URG-04", Hospitalizado,
            "Estable. PCR Negativo. Sin aislamiento de contacto."),
    Patient("p2", "M.A.R.", 45, "Apendicitis", "URG-08", PreAlta,
            "Herida limpia. Sin antecedentes infecciosos."),
    Patient("p3", "S.T.V.", 82, "Diarrea por C. Difficile", "URG-01", Hospitalizado,
            "AISLAMIENTO DE CONTACTO. Precaución estricta.")
  ]

  /** The initial registry: three patients with distinct ids, on beds URG-04, URG-08 and URG-01. */
  lemma MockRegistry()
    ensures |MockPatients| == 3
    ensures MockPatients[0].id == "p1" && MockPatients[1].id == "p2" && MockPatients[2].id == "p3"
    ensures MockPatients[0].bedNumber == "URG-04" && MockPatients[1].bedNumber == "URG-08"
    ensures MockPatients[2].bedNumber == "URG-01"
    ensures forall i, j :: 0 <= i < j < |MockPatients| ==> MockPatients[i].id != MockPatients[j].id
  {
  }

  const FallbackReasoning: string := "Protocolo preventivo por defecto (Fallo IA)"

  const FallbackMinutes: int := 60

  // ---------------------------------------------------------------------------
  // The cleaning lifecycle
  // ---------------------------------------------------------------------------

  /** The lifecycle PENDIENTE -> EN_PROCESO -> LISTA -> released; `None` is "leaves the queue". */
  function NextStatus(s: TaskStatus): Option<TaskStatus>
  {
    match s
    case Pendiente => Some(EnProceso)
    case EnProceso => Some(Lista)
    case Lista => None
  }

  /** What one task contributes to the queue when `taskId` is advanced. */
  function AdvanceStep(task: CleaningTask, taskId: string): (r: seq<CleaningTask>)
    ensures task.id != taskId ==> r == [task]
    ensures task.id == taskId && NextStatus(task.status).Some? ==> r == [task.(status := NextStatus(task.status).value)]
    ensures task.id == taskId && NextStatus(task.status).None? ==> r == []
  {
    if task.id == taskId then
      if task.status == Pendiente then [task.(status := EnProceso)]
      else if task.status == EnProceso then [task.(status := Lista)]
      else []
    else [task]
  }

  /** The queue after advancing `taskId`: the steps of all tasks, folded from the left. */
  function Advanced(queue: seq<CleaningTask>, taskId: string): (r: seq<CleaningTask>)
    ensures |r| <= |queue|
  {
    if queue == [] then []
    else Advanced(queue[..|queue| - 1], taskId) + AdvanceStep(queue[|queue| - 1], taskId)
  }

  /** Advancing works task by task, so it distributes over concatenation: relative order is kept. */
  lemma {:induction false} AdvancedAppend(a: seq<CleaningTask>, b: seq<CleaningTask>, taskId: string)
    ensures Advanced(a + b, taskId) == Advanced(a, taskId) + Advanced(b, taskId)
    decreases |b|
  {
    if b == [] {
      assert a + b == a;
    } else {
      var b' := b[..|b| - 1];
      assert (a + b)[..|a + b| - 1] == a + b';
      AdvancedAppend(a, b', taskId);
    }
  }

  /** Advancing an id that no task carries leaves the queue identical. */
  lemma {:induction false} AdvancedUnknownId(queue: seq<CleaningTask>, taskId: string)
    requires forall i :: 0 <= i < |queue| ==> queue[i].id != taskId
    ensures Advanced(queue, taskId) == queue
    decreases |queue|
  {
    if queue != [] {
      var init, last := queue[..|queue| - 1], queue[|queue| - 1];
      AdvancedUnknownId(init, taskId);
      assert AdvanceStep(last, taskId) == [last];
      assert queue == init + [last];
    }
  }

  /** The tasks carrying another id: the part of the queue an advance must not touch. */
  function OtherTasks(queue: seq<CleaningTask>, taskId: string): seq<CleaningTask>
  {
    if queue == [] then []
    else OtherTasks(queue[..|queue| - 1], taskId) + (if queue[|queue| - 1].id != taskId then [queue[|queue| - 1]] else [])
  }

  /** Tasks with other ids come out unchanged and in their relative order. */
  lemma {:induction false} AdvancedKeepsOtherTasks(queue: seq<CleaningTask>, taskId: string)
    ensures OtherTasks(Advanced(queue, taskId), taskId) == OtherTasks(queue, taskId)
    decreases |queue|
  {
    if queue != [] {
      var init, last := queue[..|queue| - 1], queue[|queue| - 1];
      AdvancedKeepsOtherTasks(init, taskId);
      OtherTasksAppend(Advanced(init, taskId), AdvanceStep(last, taskId), taskId);
      var step := AdvanceStep(last, taskId);
      if step != [] {
        assert step[..0] == [];
      }
    }
  }

  lemma {:induction false} OtherTasksAppend(a: seq<CleaningTask>, b: seq<CleaningTask>, taskId: string)
    ensures OtherTasks(a + b, taskId) == OtherTasks(a, taskId) + OtherTasks(b, taskId)
    decreases |b|
  {
    if b == [] {
      assert a + b == a;
    } else {
      var b' := b[..|b| - 1];
      assert (a + b)[..|a + b| - 1] == a + b';
      OtherTasksAppend(a, b', taskId);
    }
  }

  /**
   * No skipped and no backward transition: every task with the advanced id that is
   * still queued is an old task with that id, identical but for a status one step later.
   */
  lemma {:induction false} AdvancedMovesOneStep(queue: seq<CleaningTask>, taskId: string, t: CleaningTask)
    requires t in Advanced(queue, taskId) && t.id == taskId
    ensures exists u :: u in queue && u.id == taskId && NextStatus(u.status) == Some(t.status) && t == u.(status := t.status)
    decreases |queue|
  {
    var init, last := queue[..|queue| - 1], queue[|queue| - 1];
    if t in Advanced(init, taskId) {
      AdvancedMovesOneStep(init, taskId, t);
      var u :| u in init && u.id == taskId && NextStatus(u.status) == Some(t.status) && t == u.(status := t.status);
      assert u in queue;
    } else {
      assert last in queue;
    }
  }

  /** Advancing the id of a task that no other task carries replaces that task by its step. */
  lemma AdvancedUniqueTask(before: seq<CleaningTask>, u: CleaningTask, after: seq<CleaningTask>)
    requires forall i :: 0 <= i < |before| ==> before[i].id != u.id
    requires forall i :: 0 <= i < |after| ==> after[i].id != u.id
    ensures Advanced(before + [u] + after, u.id) == before + AdvanceStep(u, u.id) + after
  {
    AdvancedUnknownId(before, u.id);
    AdvancedUnknownId(after, u.id);
    AdvancedAppend(before + [u], after, u.id);
    AdvancedAppend(before, [u], u.id);
    assert [u][..0] == [];
  }

  lemma DropEmpty<T>(before: seq<T>, after: seq<T>)
    ensures before + [] + after == before + after
  {
  }

  /** A LISTA task whose id is unique leaves the queue when advanced. */
  lemma AdvancedReleasesTask(before: seq<CleaningTask>, u: CleaningTask, after: seq<CleaningTask>)
    requires u.status == Lista
    requires forall i :: 0 <= i < |before| ==> before[i].id != u.id
    requires forall i :: 0 <= i < |after| ==> after[i].id != u.id
    ensures Advanced(before + [u] + after, u.id) == before + after
  {
    AdvancedUniqueTask(before, u, after);
    DropEmpty(before, after);
  }

  /**
   * The whole lifecycle of a task whose id is unique: three advances take it from
   * PENDIENTE to EN_PROCESO, to LISTA, and out of the queue, touching nothing else;
   * a fourth is a no-op.
   */
  lemma Lifecycle(before: seq<CleaningTask>, t: CleaningTask, after: seq<CleaningTask>)
    requires t.status == Pendiente
    requires forall i :: 0 <= i < |before| ==> before[i].id != t.id
    requires forall i :: 0 <= i < |after| ==> after[i].id != t.id
    ensures var q1 := Advanced(before + [t] + after, t.id);
      var q2 := Advanced(q1, t.id);
      var q3 := Advanced(q2, t.id);
      && q1 == before + [t.(status := EnProceso)] + after
      && q2 == before + [t.(status := Lista)] + after
      && q3 == before + after
      && Advanced(q3, t.id) == q3
  {
    var id, t1, t2 := t.id, t.(status := EnProceso), t.(status := Lista);
    var q1 := Advanced(before + [t] + after, id);
    AdvancedUniqueTask(before, t, after);
    assert q1 == before + [t1] + after;
    var q2 := Advanced(q1, id);
    AdvancedUniqueTask(before, t1, after);
    assert q2 == before + [t2] + after;
    var q3 := Advanced(q2, id);
    AdvancedReleasesTask(before, t2, after);
    AdvancedUnknownIdOfBoth(before, after, id);
  }

  lemma AdvancedUnknownIdOfBoth(before: seq<CleaningTask>, after: seq<CleaningTask>, taskId: string)
    requires forall i :: 0 <= i < |before| ==> before[i].id != taskId
    requires forall i :: 0 <= i < |after| ==> after[i].id != taskId
    ensures Advanced(before + after, taskId) == before + after
  {
    AdvancedAppend(before, after, taskId);
    AdvancedUnknownId(before, taskId);
    AdvancedUnknownId(after, taskId);
  }

  /**
   * `handleAdvanceStatus`'s reducer: one pass over the queue pushing each task,
   * its advanced copy, or nothing onto a fresh accumulator.
   */
  method AdvanceQueue(prev: seq<CleaningTask>, taskId: string) returns (acc: seq<CleaningTask>)
    ensures acc == Advanced(prev, taskId)
    ensures |acc| <= |prev|
  {
    acc := [];
    var i := 0;
    while i < |prev|
      invariant 0 <= i <= |prev|
      invariant acc == Advanced(prev[..i], taskId)
    {
      var task := prev[i];
      assert prev[..i + 1][..i] == prev[..i];
      if task.id == taskId {
        if task.status == Pendiente {
          acc := acc + [task.(status := EnProceso)];
        } else if task.status == EnProceso {
          acc := acc + [task.(status := Lista)];
        }
      } else {
        acc := acc + [task];
      }
      i := i + 1;
    }
    assert prev[..i] == prev;
  }

  // ---------------------------------------------------------------------------
  // Discharge
  // ---------------------------------------------------------------------------

  /**
   * The task a discharge creates: the classifier's answer where it gave one, and the
   * fail-safe TERMINAL / 60 minutes / fallback reasoning for each missing or falsy field.
   */
  function BuildTask(taskId: string, patient: Patient, analysis: Option<CleaningAnalysis>): (t: CleaningTask)
    ensures t.id == taskId && t.bedNumber == patient.bedNumber && t.patientContext == patient.diagnosis
    ensures t.status == Pendiente && t.priority == Alta
    ensures t.protocol == Rapido ==> analysis.Some? && analysis.value.protocol == Some(Rapido)
    ensures t.estimatedTime != 0
    ensures analysis.None? ==> t.protocol == Terminal && t.estimatedTime == 60 && t.reasoning == FallbackReasoning
    // each field separately: the classifier's value when it is truthy, the fail-safe default otherwise
    ensures t.protocol == (if analysis.Some? && analysis.value.protocol.Some? then analysis.value.protocol.value else Terminal)
    ensures t.reasoning == (if analysis.Some? && analysis.value.reasoning != "" then analysis.value.reasoning else FallbackReasoning)
    ensures t.estimatedTime ==
      (if analysis.Some? && analysis.value.estimatedMinutes.Some? && analysis.value.estimatedMinutes.value != 0
       then analysis.value.estimatedMinutes.value else FallbackMinutes)
  {
    var protocol :=
      if analysis.Some? && analysis.value.protocol.Some? then analysis.value.protocol.value else Terminal;
    var reasoning :=
      if analysis.Some? && analysis.value.reasoning != "" then analysis.value.reasoning else FallbackReasoning;
    var estimatedTime :=
      if analysis.Some? && analysis.value.estimatedMinutes.Some? && analysis.value.estimatedMinutes.value != 0
      then analysis.value.estimatedMinutes.value
      else FallbackMinutes;
    CleaningTask(taskId, patient.bedNumber, protocol, reasoning, Alta, estimatedTime, Pendiente, patient.diagnosis)
  }

  /** How many registry entries carry `id`. */
  function CountPatient(patients: seq<Patient>, id: string): nat
  {
    if patients == [] then 0
    else (if patients[0].id == id then 1 else 0) + CountPatient(patients[1..], id)
  }

  /** `prev.filter(p => p.id !== id)`: the registry without the discharged patient. */
  function RemovePatient(patients: seq<Patient>, id: string): (r: seq<Patient>)
    ensures forall p :: p in r <==> p in patients && p.id != id
  {
    if patients == [] then []
    else if patients[0].id != id then [patients[0]] + RemovePatient(patients[1..], id)
    else RemovePatient(patients[1..], id)
  }

  /** Exactly the entries carrying the id are dropped: one fewer for a patient registered once. */
  lemma {:induction false} RemovePatientCount(patients: seq<Patient>, id: string)
    ensures |RemovePatient(patients, id)| == |patients| - CountPatient(patients, id)
    decreases |patients|
  {
    if patients != [] {
      RemovePatientCount(patients[1..], id);
    }
  }

  /** Removal keeps the remaining patients in their order: it distributes over concatenation. */
  lemma {:induction false} RemovePatientAppend(a: seq<Patient>, b: seq<Patient>, id: string)
    ensures RemovePatient(a + b, id) == RemovePatient(a, id) + RemovePatient(b, id)
    decreases |a|
  {
    if a == [] {
      assert a + b == b;
    } else {
      assert (a + b)[1..] == a[1..] + b;
      RemovePatientAppend(a[1..], b, id);
    }
  }

  /** With no patient carrying the id the registry is unchanged. */
  lemma {:induction false} RemovePatientAbsent(patients: seq<Patient>, id: string)
    requires forall i :: 0 <= i < |patients| ==> patients[i].id != id
    ensures RemovePatient(patients, id) == patients
    decreases |patients|
  {
    if patients != [] {
      RemovePatientAbsent(patients[1..], id);
    }
  }

  /** A patient registered once is cut out of the registry and nothing else moves. */
  lemma RemovePatientOnce(before: seq<Patient>, p: Patient, after: seq<Patient>)
    requires forall i :: 0 <= i < |before| ==> before[i].id != p.id
    requires forall i :: 0 <= i < |after| ==> after[i].id != p.id
    ensures RemovePatient(before + [p] + after, p.id) == before + after
  {
    RemovePatientAppend(before + [p], after, p.id);
    RemovePatientAppend(before, [p], p.id);
    RemovePatientAbsent(before, p.id);
    RemovePatientAbsent(after, p.id);
    assert RemovePatient([p], p.id) == [];
    DropEmpty(before, after);
  }

  // ---------------------------------------------------------------------------
  // Suggested actions
  // ---------------------------------------------------------------------------

  /** `prev.filter(i => i.actionItem !== action)`: the insights without those suggesting `action`. */
  function WithoutAction(insights: seq<UnstructuredInsight>, action: string): (r: seq<UnstructuredInsight>)
    ensures forall i :: i in r <==> i in insights && i.actionItem != action
    ensures |r| <= |insights|
  {
    if insights == [] then []
    else if insights[0].actionItem != action then [insights[0]] + WithoutAction(insights[1..], action)
    else WithoutAction(insights[1..], action)
  }

  /** Dismissing works insight by insight, so it distributes over concatenation: survivors keep their order and multiplicity. */
  lemma {:induction false} WithoutActionAppend(a: seq<UnstructuredInsight>, b: seq<UnstructuredInsight>, action: string)
    ensures WithoutAction(a + b, action) == WithoutAction(a, action) + WithoutAction(b, action)
    decreases |a|
  {
    if a == [] {
      assert a + b == b;
    } else {
      assert (a + b)[1..] == a[1..] + b;
      WithoutActionAppend(a[1..], b, action);
    }
  }

  /** With no insight suggesting the action, nothing is dismissed. */
  lemma {:induction false} WithoutActionAbsent(insights: seq<UnstructuredInsight>, action: string)
    requires forall i :: 0 <= i < |insights| ==> insights[i].actionItem != action
    ensures WithoutAction(insights, action) == insights
    decreases |insights|
  {
    if insights != [] {
      WithoutActionAbsent(insights[1..], action);
    }
  }

  /** Dismissing twice is dismissing once. */
  lemma {:induction false} WithoutActionIdempotent(insights: seq<UnstructuredInsight>, action: string)
    ensures WithoutAction(WithoutAction(insights, action), action) == WithoutAction(insights, action)
    decreases |insights|
  {
    if insights != [] {
      WithoutActionIdempotent(insights[1..], action);
    }
  }

  // ---------------------------------------------------------------------------
  // The coordinator's state
  // ---------------------------------------------------------------------------

  /** The coordinator screen's state and the operations that change it. */
  class Coordinator {
    var queue: seq<CleaningTask>
    var patients: seq<Patient>
    var selected: Option<Patient>
    var epicrisis: Option<EpicrisisResult>
    var cleaningAnalysis: Option<CleaningAnalysis>
    var insights: seq<UnstructuredInsight>

    /** The initial state: the mock registry, nothing selected, empty queue and insights. */
    constructor ()
      ensures queue == [] && patients == MockPatients && insights == []
      ensures selected.None? && epicrisis.None? && cleaningAnalysis.None?
    {
      queue := [];
      patients := MockPatients;
      selected := None;
      epicrisis := None;
      cleaningAnalysis := None;
      insights := [];
    }

    /**
     * The state `handleGenerateEpicrisis` leaves once its external calls have settled:
     * the patient is selected, and the draft and the cleaning analysis are both set when
     * all calls succeeded (`outcome`), both cleared when any of them failed.
     */
    method PrepareDischarge(patient: Patient, outcome: Option<(EpicrisisResult, CleaningAnalysis)>)
      modifies this
      ensures selected == Some(patient)
      ensures outcome.Some? ==> epicrisis == Some(outcome.value.0) && cleaningAnalysis == Some(outcome.value.1)
      ensures outcome.None? ==> epicrisis.None? && cleaningAnalysis.None?
      ensures queue == old(queue) && patients == old(patients) && insights == old(insights)
    {
      selected := Some(patient);
      epicrisis := None;
      cleaningAnalysis := None;
      if outcome.Some? {
        epicrisis := Some(outcome.value.0);
        cleaningAnalysis := Some(outcome.value.1);
      }
    }

    /**
     * `handleDigitalDischarge`: with a selected patient, push one task onto the head of the
     * queue, remove the patient from the registry and clear the selection, the draft and
     * the analysis; without one, change nothing.
     */
    method DigitalDischarge(taskId: string)
      modifies this
      ensures old(selected).None? ==>
        && queue == old(queue) && patients == old(patients) && selected == old(selected)
        && epicrisis == old(epicrisis) && cleaningAnalysis == old(cleaningAnalysis)
      ensures old(selected).Some? ==>
        && queue == [BuildTask(taskId, old(selected).value, old(cleaningAnalysis))] + old(queue)
        && patients == RemovePatient(old(patients), old(selected).value.id)
        && selected.None? && epicrisis.None? && cleaningAnalysis.None?
      ensures old(selected).Some? ==> |queue| == |old(queue)| + 1 && queue[1..] == old(queue)
      ensures old(selected).Some? ==>
        |patients| == |old(patients)| - CountPatient(old(patients), old(selected).value.id)
      ensures insights == old(insights)
    {
      if selected.None? {
        return;
      }
      var patient := selected.value;
      var cleaningTask := BuildTask(taskId, patient, cleaningAnalysis);
      queue := [cleaningTask] + queue;
      patients := RemovePatient(patients, patient.id);
      RemovePatientCount(old(patients), patient.id);
      epicrisis := None;
      cleaningAnalysis := None;
      selected := None;
    }

    /** `handleAdvanceStatus`: the queue is replaced by its advanced copy; nothing else changes. */
    method AdvanceStatus(taskId: string)
      modifies this
      ensures queue == Advanced(old(queue), taskId)
      ensures |queue| <= |old(queue)|
      ensures patients == old(patients) && selected == old(selected) && insights == old(insights)
      ensures epicrisis == old(epicrisis) && cleaningAnalysis == old(cleaningAnalysis)
    {
      queue := AdvanceQueue(queue, taskId);
    }

    /** `applyAction`: the insights suggesting `action` are dismissed; nothing else changes. */
    method ApplyAction(action: string)
      modifies this
      ensures insights == WithoutAction(old(insights), action)
      ensures queue == old(queue) && patients == old(patients) && selected == old(selected)
      ensures epicrisis == old(epicrisis) && cleaningAnalysis == old(cleaningAnalysis)
    {
      insights := WithoutAction(insights, action);
    }
  }

  /** Discharging the third mock patient leaves the first two, in order. */
  lemma DischargeFromMockRegistry()
    ensures MockPatients[2].bedNumber == "URG-01"
    ensures RemovePatient(MockPatients, MockPatients[2].id) == MockPatients[..2]
  {
    var p3 := MockPatients[2];
    assert MockPatients == MockPatients[..2] + [p3] + [];
    RemovePatientOnce(MockPatients[..2], p3, []);
  }

  /** A queue of one task becomes that task's step. */
  lemma AdvancedSingle(u: CleaningTask, taskId: string)
    ensures Advanced([u], taskId) == AdvanceStep(u, taskId)
  {
    assert [u][..0] == [];
  }

  /** The lifecycle of a bed whose task is alone in the queue. */
  lemma LifecycleAlone(t: CleaningTask)
    requires t.status == Pendiente
    ensures Advanced([t], t.id) == [t.(status := EnProceso)]
    ensures Advanced([t.(status := EnProceso)], t.id) == [t.(status := Lista)]
    ensures Advanced([t.(status := Lista)], t.id) == []
  {
    AdvancedSingle(t, t.id);
    AdvancedSingle(t.(status := EnProceso), t.id);
    AdvancedSingle(t.(status := Lista), t.id);
  }

  /**
   * A discharge followed by the bed's whole cleaning lifecycle, on the initial registry,
   * after a draft and a classification that arrived with every field empty: the task
   * falls back to TERMINAL / 60 minutes, the patient leaves the registry, and three
   * advances release the bed.
   */
  method DischargeScenario() returns (task: CleaningTask, remaining: seq<Patient>, finalQueue: seq<CleaningTask>)
    ensures task.protocol == Terminal && task.estimatedTime == 60 && task.bedNumber == "URG-01"
    ensures remaining == MockPatients[..2]
    ensures finalQueue == []
  {
    var c := new Coordinator();
    c.PrepareDischarge(MockPatients[2], Some((EpicrisisResult(""), CleaningAnalysis(None, "", None))));
    c.DigitalDischarge("1700000000000");
    task := c.queue[0];
    remaining := c.patients;
    DischargeFromMockRegistry();
    LifecycleAlone(task);
    assert c.queue == [task];
    c.AdvanceStatus(task.id);
    c.AdvanceStatus(task.id);
    c.AdvanceStatus(task.id);
    finalQueue := c.queue;
  }
}
