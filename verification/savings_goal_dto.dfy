/**
 * The wire shape of a savings goal and its two mappers. The DTO has no
 * deadline and no pending operation, so a goal that goes to the server and
 * back loses both.
 */
module SavingsGoalDtos {
  import opened Wrappers
  import opened SavingsGoals

  datatype SavingsGoalDTO = SavingsGoalDTO(id: string, name: string, target: int, updatedAt: int, deleted: bool)

  /** `toDomain`: a goal as the server holds it, with no pending operation and no deadline. */
  function ToDomain(dto: SavingsGoalDTO): (g: SavingsGoal)
    ensures g.pendingOp.None? && g.deadlineMillis.None?
    ensures g.id == dto.id && g.name == dto.name && g.target == dto.target
    ensures g.updatedAt == dto.updatedAt && g.deleted == dto.deleted
  {
    SavingsGoal(dto.id, dto.name, dto.target, None, dto.updatedAt, dto.deleted, None)
  }

  /** `toDto(now)`: a goal never stamped (`updatedAt <= 0`) is sent with `now`. */
  function ToDto(g: SavingsGoal, now: int): (dto: SavingsGoalDTO)
    ensures dto.id == g.id && dto.name == g.name && dto.target == g.target && dto.deleted == g.deleted
    ensures g.updatedAt > 0 ==> dto.updatedAt == g.updatedAt
    ensures g.updatedAt <= 0 ==> dto.updatedAt == now
  {
    var effectiveUpdatedAt := if g.updatedAt > 0 then g.updatedAt else now;
    SavingsGoalDTO(g.id, g.name, g.target, effectiveUpdatedAt, g.deleted)
  }

  /** A goal sent and read back is the goal, minus its pending operation and deadline, with the effective timestamp. */
  lemma ToDomainToDto(g: SavingsGoal, now: int)
    ensures ToDomain(ToDto(g, now)) ==
              g.(pendingOp := None, deadlineMillis := None, updatedAt := if g.updatedAt > 0 then g.updatedAt else now)
  {
  }

  /** A DTO read and sent back is unchanged when it carries a positive timestamp. */
  lemma ToDtoToDomain(dto: SavingsGoalDTO, now: int)
    requires dto.updatedAt > 0
    ensures ToDto(ToDomain(dto), now) == dto
  {
  }

  /** Every goal received from the server is clean, so the merge never sees a pending remote goal. */
  lemma RemoteGoalsAreClean(dtos: seq<SavingsGoalDTO>)
    ensures forall i :: 0 <= i < |dtos| ==> ToDomain(dtos[i]).pendingOp.None? && ToDomain(dtos[i]).deadlineMillis.None?
  {
  }
}
